# PayFlow: money movement, payroll and tax, verified

PayFlow is a payroll and payments backend. This project models the parts of it that move money
and states what they keep: the wallet with its ledger and cache, single and batch transfers, the
provider layer, the transfer velocity limiter, the payroll run with its loans and payslips, and
the tax arithmetic. `dafny verify dfyconfig.toml` checks everything.

## How it is organised

| files | what they model |
|---|---|
| `Common` | optional values and sums over sequences |
| `WalletRows`, `WalletProtocol` | the wallet row and its four guarded updates; every wallet call as a program with a program counter, one database statement a step, any number of calls interleaved, each statement free to fail |
| `WalletConservation`, `WalletReservation`, `WalletLedger` | invariants over all interleavings: money, references, locks, books |
| `WalletOutcomes` | what a call is told, and what the provider is sent, alone and under every interleaving |
| `WalletService` | the services as sequential code, each proved equal to its program run alone |
| `WalletCache` | coherence of the balance cache over sequential histories and over every interleaving |
| `WalletFindings` | concrete schedules on which a promise of the code fails |
| `Tax` | the bracket loop, PAYE and the other statutory amounts, in unbounded and in 64-bit arithmetic |
| `Payslip`, `PayrollSummary`, `PayslipTotals` | a payroll calculation, the register that reads it back, and both from their independent parts |
| `Loans`, `PayrollRuns` | amortisation, the life of a payroll run, and many runs over one loan table |
| `PayrollHistories`, `PayrollStatuses` | what the life of a run can come to; its status after any sequence of calls |
| `PayrollOverlap`, `PayrollVerification` | calls processing one run at the same time, step by step; when a run counts as paid |
| `CircuitBreakers`, `Failover`, `FailoverTraffic` | the breaker against a stateless rule over its history; ordered failover of one request, and of many whose steps interleave |
| `WorkerPool`, `BatchResults`, `Bulk`, `BatchTransfers` | five workers under every schedule, joining results to records, splitting a batch, and what the batch response means |
| `BatchDebits`, `PayrollDebits` | what the wallet makes of the calls of a batch, and of a payroll |
| `Velocity` | the in-place pruned limiter against the full history |

Code that updates state is a class or a method with loops, proved equal to a specification
function; the main results are lemmas about those functions over every input or every run.

## Assumptions

- A failed insert inserts nothing. An UPDATE succeeds, has no effect, or (because the code updates
  and then selects the row again) takes effect and still reports an error; the last is called torn.
- Breaker clocks do not run backwards in the order their locks are taken. For the limiter this is not
  assumed: `SkewIsHarmlessIff` says exactly which clock readings matter.
- Saving a payroll run inserts the entries that have no identity yet and deletes none.
- Payroll calls are atomic with respect to one another; `OverlappingCallsDisburse` says how often a
  run is disbursed otherwise.
- Amounts and fees of wallet calls are non-negative. A provider's result carries the reference of
  the request it answers.
- The database, the cache, providers and clocks are parameters: every answer they may give is
  quantified over. The setters `UpdateRunStatus` and `MarkRun*`, which nothing calls, are excluded.

## What the code does not keep

Each is proved; where a condition is named it is exact.

- A torn deposit UPDATE is reported as failed with the money applied; redelivery credits twice
  (`RedeliveryAfterTornUpdateCreditsTwice`). A run ends with nothing stranded if and only if none of
  its steps tore (`SoundRunIff`).
- The rollback of a withdrawal does not restore `locked`, so the deferred unlock releases a lock
  twice (`FailedInsertUnlocksTwice`), and the batch path unlocks what it never locked
  (`BatchUnlockTakesAnothersLock`). `RunKeepsReservationsIff` says exactly which steps do harm.
- A transfer that the provider settled can go undebited (`PaidWithoutDebitIff` says exactly when), and its
  caller is not told.
- A cached balance can be stale after an interleaved read (`InterleavedReadCachesStaleBalance`);
  `InterleavedCoherentIff` and `CoherentAtRestIff` say exactly when, over every interleaving, and
  `CacheCoherence` over sequential histories.
- The limiter reads the clock before it takes its lock: a nanosecond of skew can let a window exceed
  its limit (`SkewedClockForgets`).
- A split batch never reports an error: in a total outage a batch is counted wholly successful if and
  only if its amounts are allowed and it is split into native calls only (`OutageCountsAsSuccessIff`),
  and a payroll paid that way completes and reduces its loans (`OutageCompletesPayrollIff`). A run also
  completes when nobody is paid twice and the rows of all its transfers are among the newest two
  hundred, paid or not (`CompletesIff`, `UnpaidRunIsCompleted`).
- Payroll hands net pay in kobo to a batch that reads naira, so the wallet is asked for a hundredfold
  (`PayrollAsksHundredfold`, against limits it compares with kobo, `PayrollWithinLimitsIff`) and debited that if and only if it covers it and nobody is paid money a
  second time (`PayrollIsDebitedHundredfoldIff`).
- A withdrawal of a batch that is not covered is skipped and nothing says so (`UncoveredIsSkipped`,
  `RefusedPayIsNotDebited`); `DebitedInFullIff` says exactly when a batch is debited what it asks for.
- A run can be left in processing, its batch sent or not, and stays there (`PaidRunStaysInProcessing`,
  `ProcessingIsForever`); `LeftInProcessingIff` says exactly when. A completed run has updated its loans
  if and only if the save that completed it was not torn (`CompletedRunUpdatedLoansIff`).
- A draft can be processed at once although its business requires approval (`DraftIsPaidUnapproved`); no
  other way of paying a run gets past approval (`UnsignedIsUnpaid`).
- Calls that load a run before it is marked each send its batch; `OverlappingCallsDisburse` counts them.
- Amending a draft adds the recalculated entries to the stored ones instead of replacing them. The
  transfers of both are requested (`AmendedRunAsksForBoth`), but the wallet is debited for each employee
  once, by the stored entry, if it covers that (`AmendedRunIsDebitedOnceIff`). A run holds one payable
  entry for each employee if and only if it did to begin with and no amendment was saved
  (`PaysOnceIffNeverAmended`).
- Basic pay found by name in the component that counts as housing or transport counts twice in the
  pension base (`FallbackCountsTwice`); `PensionBaseWithinGrossIff` says exactly when the base exceeds
  gross.
- PAYE overflows 64 bits for very large pay (`OverflowJustAbove`), exactly as `PayeIsExactIff` and
  `CalculationIsExactIff` say.
- With repeated references, the order in which workers finish decides what is reported
  (`OrderMattersUnlessResultsAgree`).

Where documentation and code disagree the code is followed: the half-open breaker lets every request
through although its comment speaks of one; a transaction reference is unique over all businesses.

## Model

| member | source | states |
|---|---|---|
| WalletRows.WalletRepository.FindByBusinessID | internal/repository/postgres/wallet_repo.go:140-149 | the row, or nothing when it is missing or the query fails |
| WalletRows.WalletRepository.IncrementBalance | internal/repository/postgres/wallet_repo.go:175-187 | one unguarded update of the balance, clean, refused or torn |
| WalletRows.WalletRepository.DecrementBalanceAndLocked | internal/repository/postgres/wallet_repo.go:189-201 | debits only if covered, and clamps the released lock at zero |
| WalletRows.WalletRepository.IncrementLocked | internal/repository/postgres/wallet_repo.go:203-215 | locks only what balance minus locked still allows |
| WalletRows.WalletRepository.DecrementLocked | internal/repository/postgres/wallet_repo.go:217-229 | unlocks, clamped at zero |
| WalletRows.StatementKeepsRowSound | internal/repository/postgres/wallet_repo.go:175-229 | which statements keep 0 <= locked <= balance on a row, exactly |
| WalletConservation.Reachable | internal/service/wallet_service.go:209-338 | every state of every interleaving satisfies the invariant tying all tables to the calls' histories |
| WalletConservation.BalanceIsConserved | internal/service/wallet_service.go:209-338 | at every moment of every interleaving, balance = opening balance + recorded amounts + what calls have moved and not recorded or rolled back |
| WalletConservation.UnrecordedOnlyInFlight | internal/service/wallet_service.go:225-259 | an unrecorded amount exists only between a call's update and its insert or rollback, or once stranded |
| WalletConservation.RecordedExactlyOnce | internal/service/wallet_service.go:209-338 | over any number of duplicate calls a reference is recorded at most once, and a deposit or withdrawal that returned nil is recorded |
| WalletConservation.StrandedExactlyByTears | internal/repository/postgres/wallet_repo.go:175-229 | a call gives up with money applied exactly at a torn update or a failed compensation |
| WalletConservation.QuiescentBalance | internal/service/wallet_service.go:209-338 | when all calls have returned and nothing tore, balance = opening balance + what was recorded |
| WalletConservation.SoundStepIff | internal/service/wallet_service.go:209-338 | a step leaves nothing stranded if and only if it does not tear |
| WalletConservation.SoundRunIff | internal/service/wallet_service.go:209-338 | a run ends with nothing stranded if and only if none of its steps tore |
| WalletReservation.StepKeepsReservationsIff | internal/service/transfer_service.go:144-270 | one step keeps locked = held amounts and locked <= balance if and only if it does not release a lock it does not hold or spend what is reserved |
| WalletReservation.RunKeepsReservationsIff | internal/service/transfer_service.go:144-270 | the same over whole runs, both directions |
| WalletReservation.OrdinaryRunsNeverTrespass | internal/service/transfer_service.go:144-270 | with no fee, no batch call, successful inserts and untorn debits, no interleaving of transfers trespasses |
| WalletReservation.EveryPlainStateIsGuaranteed | internal/service/transfer_service.go:144-270 | transfers with fresh references of their own, no fee, untorn reservations and debits, successful inserts and unlocks, no batch call: every state of every interleaving is reserved, orderly and retains nothing |
| WalletReservation.ReservationGuarantee | internal/service/transfer_service.go:144-270 | in each such state locked is the sum of what is held and is covered by the balance, and at rest it is zero |
| WalletReservation.ClampNeverFires | internal/repository/postgres/wallet_repo.go:189-229 | in no such state does GREATEST(..., 0) change anything |
| WalletReservation.SettledTransferIsCovered | internal/service/wallet_service.go:285-300 | in no such state is a transfer the provider settled refused for lack of balance |
| WalletReservation.RetainedExactlyWhen | internal/service/transfer_service.go:150-165 | the three ways, and no other, in which a finished call keeps its lock |
| WalletReservation.FreshReferenceIsNeverFound | internal/service/wallet_service.go:273-283 | a transfer whose reference no other recording call shares never finds it recorded |
| WalletReservation.LockedAtRest | internal/service/transfer_service.go:144-270 | at rest locked is zero exactly when no finished call holds a lock |
| WalletOutcomes.VerdictIff | internal/service/wallet_service.go:209-338 | a deposit, withdrawal or transfer succeeds exactly when it finds its reference recorded, or moves the money untorn and records it |
| WalletOutcomes.RedeliverySucceeds | internal/service/wallet_service.go:211-214 | a redelivered deposit or repeated withdrawal succeeds and changes nothing |
| WalletOutcomes.FoundIff | internal/service/wallet_service.go:211-278 | over every interleaving a call has succeeded without recording exactly when it looked up a reference recorded by then |
| WalletOutcomes.InterleavedVerdictIff | internal/service/wallet_service.go:209-338 | a finished call of any interleaving has succeeded if and only if it recorded its reference or found it recorded |
| WalletOutcomes.SentAtMostOnce | internal/service/transfer_service.go:176-220 | under every interleaving the provider is asked at most once to pay out under a reference, and never under one taken before |
| WalletOutcomes.PaidWithoutDebitIff | internal/service/transfer_service.go:256-270 | a settled transfer goes undebited exactly when its withdrawal finds the reference, does not reach its update, or is rolled back unrecorded |
| WalletLedger.LedgerStaysPaired | internal/repository/postgres/ledger_repo.go:20-27 | every reachable ledger is made of debit and credit pairs of equal amount |
| WalletLedger.DebitsEqualCredits | internal/repository/postgres/ledger_repo.go:42-76 | so debits equal credits for every business |
| WalletLedger.DiscrepancyIsWhatFailed | internal/service/ledger_service.go:133-149 | the discrepancy of any reachable state is what is in flight or stranded, plus missed deposit postings, minus missed withdrawal and fee postings |
| WalletLedger.AllPostedIff | internal/service/wallet_service.go:261-334 | once all calls have returned, everything recorded is posted if and only if no posting of an amount or a fee failed on the way |
| WalletLedger.BooksAgreeAtRest | internal/service/ledger_service.go:133-149 | at rest, when no step tore and no step failed to post, books and wallet agree |
| WalletLedger.MissedIsPartOfTheCall | internal/service/wallet_service.go:261-334 | a missed amount is between nothing and the whole of its call |
| WalletLedger.EveryAccountIsPosted | internal/service/ledger_service.go:44-124 | at every moment of every interleaving the wallet, external and revenue accounts of each business have moved by what the steps so far posted to each: deposits from outside, payouts to outside, fees to revenue |
| WalletLedger.AccountsAtRest | internal/service/wallet_service.go:261-334 | at rest, when no step failed to post, revenue has grown by the fees of the recorded calls, external by their payouts less their deposits, the wallet by the difference |
| WalletLedger.LedgerService.CreatePair | internal/repository/postgres/ledger_repo.go:20-27 | both lines or neither |
| WalletLedger.LedgerService.RecordDeposit | internal/service/ledger_service.go:44-70 | the ledger stays paired and the wallet account rises by the amount |
| WalletLedger.LedgerService.RecordWithdrawal | internal/service/ledger_service.go:72-98 | the ledger stays paired and the wallet account falls by the amount |
| WalletLedger.LedgerService.RecordFee | internal/service/ledger_service.go:100-124 | the ledger stays paired and the wallet account falls by the fee |
| WalletLedger.LedgerService.Reconcile | internal/repository/postgres/ledger_repo.go:61-76 | credits and debits are the sums of the account's entries; reconciled exactly when their difference equals the wallet's balance |
| WalletServices.SoloIsASchedule | internal/service/wallet_service.go:209-338 | a call run alone is one of the interleavings, so their theorems cover it |
| WalletServices.WalletService.FindByReference | internal/repository/postgres/wallet_transaction_repo.go:66-75 | whether the reference is recorded; a failed lookup says no |
| WalletServices.WalletService.CreateTransaction | internal/repository/postgres/wallet_transaction_repo.go:22-30 | an insert fails on a known reference and then changes nothing |
| WalletServices.WalletService.RecordDeposit | internal/service/wallet_service.go:209-270 | the sequential code ends where the call's program, run alone, ends |
| WalletServices.WalletService.InsertDeposit | internal/service/wallet_service.go:229-270 | record, retry once, roll back: as the program from its insert |
| WalletServices.WalletService.RollBack | internal/service/wallet_service.go:247-257 | the compensating update, as the program's rollback step |
| WalletServices.WalletService.RecordWithdrawal | internal/service/wallet_service.go:273-338 | the same for a withdrawal, alone or as the tail of a transfer |
| WalletServices.WalletService.InsertWithdrawal | internal/service/wallet_service.go:300-338 | record or roll back: as the program from its insert |
| WalletServices.WalletService.CheckBalance | internal/service/wallet_service.go:176-188 | fails exactly when the row is missing or balance minus locked is below the amount |
| WalletServices.WalletService.LockBalance | internal/service/wallet_service.go:191-197 | the reserving step of a transfer |
| WalletServices.WalletService.UnlockBalance | internal/service/wallet_service.go:200-206 | the releasing step |
| WalletServices.WalletService.ExecuteTransfer | internal/service/transfer_service.go:81-293 | check, lock, record, provider, withdrawal, deferred unlock: as the transfer's program run alone |
| WalletServices.WalletService.RetryTransfer | internal/service/transfer_service.go:307-336 | refused unless the owner's transfer failed; otherwise a transfer under the derived reference |
| WalletServices.WalletService.GetBalance | internal/platform/cache/cache.go:26-59 | cache-aside: the cached balance if there is one, else the row's, else nothing, each exactly when |
| WalletServices.WalletService.InvalidateBalanceCache | internal/platform/cache/cache.go:62-69 | drops one entry, or nothing when the store fails |
| WalletCache.SoloCache | internal/service/wallet_service.go:165-173 | a call alone leaves its cache entry exactly when it did not get to invalidate it |
| WalletCache.WhereACallEnds | internal/service/wallet_service.go:209-338 | what a lone call has applied and recorded at its end, from the store before it and the answers it gets |
| WalletCache.SoloCoherentIff | internal/service/wallet_service.go:94-98 | a lone call leaves a coherent cache coherent if and only if, by the store before it and its answers, it does not leave money moved under a cached balance |
| WalletCache.CacheStaysCoherent | internal/service/wallet_service.go:165-173 | with untorn updates and successful rollbacks and invalidations, cached balances equal the rows' throughout every sequential history |
| WalletCache.CacheCoherence | internal/service/wallet_service.go:165-173 | over every sequential history they do if and only if no call goes stale by that condition |
| WalletCache.StepCoherentIff | internal/platform/cache/cache.go:26-69 | a step of any interleaving keeps the cache coherent if and only if it neither moves a cached balance nor stores an outdated one |
| WalletCache.InterleavedCoherentIff | internal/platform/cache/cache.go:26-69 | the same over whole runs |
| WalletCache.CachedHasASource | internal/platform/cache/cache.go:26-59 | every cached value was stored by a read of the run and untouched since |
| WalletCache.CoherentAtRestIff | internal/platform/cache/cache.go:26-69 | after any run the cache is coherent if and only if every cached balance is again what it was when its read loaded it |
| WalletFindings.RedeliveryAfterTornUpdateCreditsTwice | internal/service/wallet_service.go:222-227 | one reference credited twice and recorded once |
| WalletFindings.SettlingIsReachable | internal/service/transfer_service.go:144-270 | ordinary steps lead to one transfer settled while another holds its lock |
| WalletFindings.FailedInsertUnlocksTwice | internal/service/wallet_service.go:310-324 | from there a failed insert leaves a held lock unreserved |
| WalletFindings.BatchUnlockTakesAnothersLock | internal/service/transfer_batch.go:109-115 | from there one failed batch payout does |
| WalletFindings.InterleavedReadCachesStaleBalance | internal/platform/cache/cache.go:26-59 | an interleaved read caches an outdated balance |
| Tax.ApplyBrackets | internal/service/tax/paye.go:69-93 | the loop, in either width, is the closed form exactly up to the stated 64-bit limit |
| Tax.BracketTaxIsClosedForm | internal/service/tax/paye.go:69-93 | per-bracket floors equal the floor of the exact piecewise-linear tax, for every integer; in 64 bits exactly up to 5*10^9 + (2^63-1)/25 |
| Tax.NumeratorValue | internal/service/tax/paye.go:18-25 | the maximum of the five lines is the bracket table's tax in hundredths |
| Tax.SplittingNeverRaisesTax | internal/service/tax/paye.go:69-93 | tax(a) + tax(b) <= tax(a + b), floors included |
| Tax.MarginalRate | internal/service/tax/paye.go:69-93 | tax is non-decreasing and rises by at most a quarter of the rise in income |
| Tax.PayeIsTwelfth | internal/service/tax/paye.go:35-65 | monthly PAYE above the threshold is a twelfth of the closed form, negative taxable incomes included |
| Tax.PayeTakesAtMostAQuarter | internal/service/tax/paye.go:35-65 | above the threshold, raising gross by d raises PAYE by at most ceil(d/4) |
| Tax.PayeIsMonotone | internal/service/tax/paye.go:35-65 | PAYE never falls as gross rises, across the exemption too |
| Tax.CliffIsBelowFiftyThousand | internal/service/tax/paye.go:36-39 | crossing the exemption costs less than 50,000 kobo of take-home pay |
| Tax.CliffIsTight | internal/service/tax/paye.go:36-39 | and can cost 49,999 |
| Tax.StatutoryCap | internal/service/tax/engine.go:6-46 | employee deductions never exceed 32.875 % of gross |
| Tax.ContributionsAreShares | internal/service/tax/engine.go:9-30 | pension is 8 and 10 % of basic, housing and transport, NHF 2.5 % of basic, NSITF 1 % of gross, each rounded down and only when its scheme is on |
| Tax.ContributionIsZeroIff | internal/service/tax/engine.go:13-30 | a contribution is zero exactly when its scheme is off or its share is below a kobo |
| Tax.TaxOfCalculation | internal/service/tax/engine.go:32-43 | the tax of a calculation in figures: nothing when off or up to 7,000,000 kobo, else a twelfth of the closed form on 12 (gross - pension - NHF) less the lesser of a fifth of the rent and 50,000,000 |
| Tax.NoOverflow | internal/service/tax/engine.go:6-46 | every intermediate value, the bracket loop's among them, fits in 64 bits up to gross 3*10^16 and rent 4*10^17, and the result is exact |
| Tax.PayeIsExactIff | internal/service/tax/paye.go:35-65 | when a year's pay and 20 times the rent fit in 64 bits, monthly PAYE is exact if and only if the pay is exempt or 12 (gross - pension - NHF) - relief is within the loop's limit |
| Tax.CalculationIsExactIff | internal/service/tax/engine.go:6-46 | when a year's pay, 25 times basic pay and 20 times the rent fit in 64 bits, the whole calculation is exact if and only if no tax is due or the taxable income is within the loop's limit |
| Tax.OverflowJustAbove | internal/service/tax/engine.go:6-46 | an input just above the bounds on which PAYE is wrong; `PayeIsExactIff` says when |
| Tax.EmployerCostsAreTheirParts | internal/service/tax/engine.go:6-46 | for every input the parts are non-negative and the totals are their sums |
| Velocity.TransferCounter.Cleanup | internal/api/middleware/velocity.go:22-43 | the arrays hold exactly the times after the cutoffs, in order |
| Velocity.TransferCounter.Handle | internal/api/middleware/velocity.go:86-122 | the decision and the new arrays are those of the pruned specification |
| Velocity.Compact | internal/api/middleware/velocity.go:26-33 | in-place compaction keeps exactly the recent elements in order |
| Velocity.PrunedRefinesFullHistory | internal/api/middleware/velocity.go:22-122 | for every request sequence in clock order, every decision is that of the unbounded history and the arrays are its last hour and day |
| Velocity.ClockOrderIsTolerable | internal/api/middleware/velocity.go:76-87 | events in clock order forget nothing that still counts |
| Velocity.TolerableRunsDecideAlike | internal/api/middleware/velocity.go:74-122 | clock readings out of lock order change no decision as long as no event prunes what a later request would still count |
| Velocity.SkewIsHarmlessIff | internal/api/middleware/velocity.go:74-122 | and that condition is exact: it holds if and only if, for all limits, every request and any repetition of it are decided as by the full history |
| Velocity.NoWindowExceedsItsLimit | internal/api/middleware/velocity.go:89-117 | under it no window (s, s+1h] or (s, s+24h] ever holds more of what the limiter lets through than its positive limit |
| Velocity.LimiterAnswers | internal/api/middleware/velocity.go:86-122 | the hourly limit when it is on and as many were let through in the last hour, else the daily one when as many were in the last day, else admitted |
| Velocity.SkewedClockForgets | internal/api/middleware/velocity.go:76-87 | one nanosecond of skew lets two transfers into an hour limited to one |
| CircuitBreakers.StateTellsHistory | internal/service/provider/circuit_breaker.go:68-117 | the fields after any history are its failures since success, last failure and threshold test |
| CircuitBreakers.BreakerRefinesRule | internal/service/provider/circuit_breaker.go:68-117 | closed exactly below the threshold; allows exactly below it or after the timeout |
| CircuitBreakers.RefinementNeedsPositiveThreshold | internal/service/provider/circuit_breaker.go:36-39 | the refinement holds for all histories if and only if the threshold is at least one |
| CircuitBreakers.CircuitBreaker.Allow | internal/service/provider/circuit_breaker.go:68-87 | the answer and new state of asking |
| CircuitBreakers.CircuitBreaker.RecordSuccess | internal/service/provider/circuit_breaker.go:90-99 | closes and forgets failures |
| CircuitBreakers.CircuitBreaker.RecordFailure | internal/service/provider/circuit_breaker.go:102-117 | counts, dates and opens at the threshold |
| CircuitBreakers.ProviderCircuitBreakers.Get | internal/service/provider/circuit_breaker.go:135-155 | the provider's one breaker, created closed on first use, others untouched |
| Failover.TransferProviderManager.AttemptTransfer | internal/service/provider/manager.go:106-141 | breaker asked, provider contacted, outcome reported to that breaker only |
| Failover.TransferProviderManager.TryTransfer | internal/service/provider/manager.go:91-104 | attempts in order until one answers |
| Failover.LeastIndexedProviderWins | internal/service/provider/manager.go:85-141 | the result is that of the least-indexed provider let through at its turn that accepts; contacted are exactly those let through up to it; failure only if all are blocked or refuse |
| Failover.TurnFindsOwnBreaker | internal/service/provider/manager.go:48-66 | with distinct providers each is judged by the breaker it had before the request |
| FailoverTraffic.TrafficFollowsRule | internal/service/provider/manager.go:85-141 | under every such interleaving each request goes as the stateless rule on the logs says, and the breakers are what the logs replay to |
| FailoverTraffic.InterleavedFailover | internal/service/provider/manager.go:85-141 | with every question and every report a step of its own, interleaved with those of any other requests, a finished request was answered by the first provider that the rule allowed on its log when asked and that accepts; it contacted exactly the allowed ones, and failed only if there was none |
| FailoverTraffic.AloneIsTry | internal/service/provider/manager.go:91-141 | the steps of a request with nothing in between are trying its providers in one go |
| FailoverTraffic.FailoverAfterAnyHistory | internal/service/provider/manager.go:85-141 | after any traffic a request with the breakers to itself is answered by the least-indexed provider that the rule on the logs allows and that accepts, contacts exactly the allowed ones up to it, and fails only if there is none |
| FailoverTraffic.NotContactedWithinTimeout | internal/service/provider/manager.go:106-115 | in any state of any interleaving a provider at its failure threshold is not contacted within the timeout |
| WorkerPool.SendsNeverBlock | internal/service/provider/manager.go:271-282 | in every reachable state a send that is due has room in its channel |
| WorkerPool.SomeStepIsDue | internal/service/provider/manager.go:275-303 | until the results are collected some goroutine can move |
| WorkerPool.PoolTerminates | internal/service/provider/manager.go:262-326 | every schedule ends within a bound fixed at launch, no due step blocks, and some step is due until the end |
| WorkerPool.OneResultPerJob | internal/service/provider/manager.go:262-326 | when collected, the results hold each job exactly once |
| Bulk.ExecuteBulkAsConcurrentSingles | internal/service/provider/manager.go:262-306 | whatever the scheduling, the results are a rearrangement of the sequential ones |
| Bulk.PoolJoinsAsSequentialPass | internal/service/transfer_batch.go:180-242 | with distinct references, joined responses are those of a sequential pass |
| Bulk.FailedSingleIsReported | internal/service/provider/manager.go:262-306 | a transfer whose single call fails is told so, with the message as its record's error |
| Bulk.SplitAndProcessBulk | internal/service/provider/manager.go:201-258 | the submissions are the planned chunks, the results theirs in turn, the error the first native failure |
| Bulk.FirstErrorIs | internal/service/provider/manager.go:242-258 | the error of a split batch is that of the earliest native call that failed |
| Bulk.SubmitChunk | internal/service/provider/manager.go:230-254 | a chunk below the minimum goes to the pool, any other to one native call |
| Bulk.InitiateBulkTransfer | internal/service/provider/manager.go:152-198 | an error comes back exactly from a failing single native call |
| Bulk.PlanCoversBatch | internal/service/provider/manager.go:170-258 | the submissions concatenate to the batch: each transfer goes to exactly one |
| Bulk.PlanByLimits | internal/service/provider/manager.go:152-198 | below the minimum or without native support the pool, within the limits one native call, above them chunks |
| Bulk.SplitCount | internal/service/provider/manager.go:211-217 | ceil(n / max) chunks |
| Bulk.SplitShape | internal/service/provider/manager.go:211-254 | full chunks but the last, native calls within [min, max], only a last small chunk pooled, numbered references |
| Bulk.SubmissionsHaveDistinctReferences | internal/service/provider/manager.go:218 | no two chunks share a reference |
| Bulk.DecimalIsInjective | internal/service/provider/manager.go:218 | different numbers print differently |
| Bulk.DecimalReadsBack | internal/service/provider/manager.go:218 | a printed number read back is the number, without padding |
| Bulk.ReportedAsSaid | internal/service/transfer_batch.go:180-242 | every transfer is reported as what its own submission said of it |
| Bulk.SaidIsReported | internal/service/transfer_batch.go:180-242 | and everything a submission said is reported |
| BatchResults.IndexByReference | internal/service/transfer_batch.go:184-188 | the table holds the last result of each reference |
| BatchResults.UpdateTransferRecordsWithResults | internal/service/transfer_batch.go:180-242 | each record and response takes its result; without one, success and pending |
| BatchResults.ToldByTheLast | internal/service/transfer_batch.go:184-232 | a transfer is told, and its record becomes, the fields of the last result under its reference with the message of a failure; without one, a success and pending |
| BatchResults.OrderMattersUnlessResultsAgree | internal/service/transfer_batch.go:184-196 | the answer for a reference is independent of arrival order if and only if its results agree |
| BatchResults.TalliesPartition | internal/service/transfer_batch.go:87-99 | every response is counted once |
| BatchResults.CountOutcomes | internal/service/transfer_batch.go:87-99 | the three counts are the tallies; all succeeded, all pending or processing, and none failed, each exactly when |
| BatchTransfers.AggregateBulkResults | internal/service/provider/manager.go:329-368 | complete, failed or partial, each exactly when; no results at all is complete |
| BatchTransfers.ExecuteBatchTransfer | internal/service/transfer_batch.go:15-137 | the first bad amount fails the batch and asks the wallet for nothing; a provider error does; otherwise the report of the joined responses, and a withdrawal or an unlock asked for each, within the maximum |
| BatchTransfers.RefusedForAmountsIff | internal/service/transfer_service.go:383-409 | a batch is refused for its amounts exactly when one cannot be read, is more than half a naira below a positive minimum, or half a naira or more above a positive maximum |
| BatchTransfers.AskedWithinLimits | internal/service/transfer_service.go:401-403 | with a maximum, a batch asks the wallet for at most 100 max + 50 kobo a transfer |
| BatchTransfers.RoundIsNearest | internal/service/transfer_service.go:411-422 | rounding is to a nearest whole number, halves away from zero |
| BatchTransfers.KoboIsNearest | internal/service/transfer_service.go:411-422 | the kobo of an amount are within half of a hundred times it; an unreadable one is none |
| BatchTransfers.AnsweredTransferByTransfer | internal/service/transfer_batch.go:84-137 | a batch that went through is answered transfer by transfer; it is a success if none failed, wholly successful if each is one |
| BatchTransfers.AskedFor | internal/service/transfer_batch.go:101-117 | the wallet is asked exactly for a withdrawal for each transfer that succeeded, is pending or processing, and for the release of each other positive amount |
| BatchTransfers.WhollySuccessfulIff | internal/service/transfer_batch.go:87-137 | all n counted successful if and only if no submission denied one of them |
| BatchTransfers.SplitIsNativeIff | internal/service/provider/manager.go:211-254 | all chunks go native if and only if the last is full or reaches the minimum |
| BatchTransfers.OutageOfSplitBatchIsReportedSuccessful | internal/service/provider/manager.go:242-258 | a split batch whose native calls all fail is reported wholly successful |
| BatchTransfers.OutageCountsAsSuccessIff | internal/service/provider/manager.go:170-258 | however it is answered, a batch in a total outage is counted wholly successful if and only if its amounts are allowed and it is split into native calls only |
| BatchTransfers.SettleWallet | internal/service/transfer_batch.go:101-117 | one withdrawal for each transfer not failed, one unlock for each failed one with a positive amount |
| BatchTransfers.WithdrawnIsHundredfold | internal/service/transfer_service.go:411-422 | for whole amounts the wallet is asked for a hundred times what is handed over, since they are read as naira |
| BatchDebits.ServeBatch | internal/service/transfer_batch.go:101-117 | the wallet service ends as after each call made in turn, whatever the calls return |
| BatchDebits.UncoveredIsSkipped | internal/service/wallet_service.go:284-293 | a withdrawal the balance does not cover, or without a wallet, changes nothing at all, whatever is answered |
| BatchDebits.RecordedIsSkipped | internal/service/wallet_service.go:274-278 | so does one whose reference is found recorded |
| BatchDebits.NeverMoreThanAsked | internal/service/transfer_batch.go:101-117 | whatever fails, a batch's calls take no more than they ask for and never bring a balance below zero |
| BatchDebits.DebitedOncePerReferenceIff | internal/service/wallet_service.go:273-338 | when the deciding statements work, the wallet is debited once per new reference, by the first call that names it, if and only if the balance covers that |
| BatchDebits.DebitedInFullIff | internal/service/wallet_service.go:273-338 | and all that is asked for if and only if the balance covers it and no positive withdrawal repeats a reference |
| Loans.LoanService.Create | internal/service/loan_service.go:28-36 | a new active loan owing its whole amount, or nothing |
| Loans.LoanService.Cancel | internal/service/loan_service.go:52-65 | only the owner, only while active; balances stay |
| Loans.LoanService.UpdateLoanBalances | internal/service/payroll_processing.go:287-318 | each loan is repaid once for each entry that loaded and saved it, no other changes |
| Loans.ExactAmortisation | internal/service/payroll_processing.go:300-312 | after k repayments remaining = max(0, L - kM), repaid + remaining = L, completed exactly when kM >= L |
| Loans.EveryHistoryAmortisesExactly | internal/service/loan_service.go:28-65 | the same over every history with cancellations, which freeze the balances |
| Loans.CancelledIff | internal/service/loan_service.go:52-65 | a loan ends cancelled exactly when its own business cancelled it while it was active |
| Loans.DetailsSumToDrop | internal/service/payroll_processing.go:287-318 | with loans unchanged, the instalments due before a run are the total drop in balances it causes |
| PayrollRuns.PayrollService.ProcessPayrollRunInstantly | internal/service/payroll_processing.go:40-124 | status, disbursement and loan table end as specified, whatever fails |
| PayrollRuns.PayrollService.ProcessApprovedPayroll | internal/service/payroll_processing.go:16-37 | a firing job processes only an approved run |
| PayrollRuns.PayrollService.SubmitForApproval | internal/service/payroll_service.go:72-150 | pending, approved and queued, or processed at once, by policy and failures |
| PayrollRuns.PayrollService.ApprovePayrollRun | internal/service/payroll_service.go:153-205 | approved, processed, or rolled back to pending when it cannot be queued |
| PayrollRuns.PayrollService.RejectPayrollRun | internal/service/payroll_service.go:208-256 | only a pending run, with a reason, by its business |
| PayrollRuns.PayrollService.AmendPayrollRun | internal/service/payroll_service.go:259-288 | only a draft changes its entries, and the recalculated ones are added to those stored |
| PayrollRuns.PayrollService.ReversePayrollRun | internal/service/payroll_service.go:291-327 | only a completed run, with a reason |
| PayrollRuns.PayrollService.Store | internal/service/payroll_processing.go:52-55 | a save that may be lost or torn |
| PayrollRuns.AtMostOnceDisbursed | internal/service/payroll_processing.go:40-124 | over every sequence of calls and failures, one disbursement and one loan update at most |
| PayrollRuns.NoWayBack | internal/service/payroll_service.go:72-327 | no call leads back to draft, pending or approved, nor changes entries or history after that |
| PayrollStatuses.StatusIff | internal/service/payroll_service.go:72-327 | after any sequence of calls a run has each status exactly when some call led it there and none since led it away; the calls are named for all seven |
| PayrollStatuses.RejectedIsNeverPaid | internal/service/payroll_service.go:208-256 | a run rejected while pending stays rejected and unpaid whatever follows; a reversed one stays rejected and paid |
| PayrollStatuses.DisbursedIff | internal/service/payroll_processing.go:43-76 | a run has been disbursed if and only if some call got to send its batch |
| PayrollStatuses.JobsAreQueued | internal/service/payroll_service.go:133-198 | the payouts queued for a run are those of its self-approving submissions and its approvals |
| PayrollStatuses.UnsignedIsUnpaid | internal/service/payroll_service.go:130-205 | where approval is required, a run nobody signed, nor processed as a draft, is draft, pending or rejected and unpaid |
| PayrollStatuses.DraftIsPaidUnapproved | internal/service/payroll_processing.go:48-51 | but a draft can be processed at once, unapproved |
| PayrollStatuses.AnyDraftIsSent | internal/service/payroll_processing.go:48-76 | any draft with somebody to pay can be |
| PayrollStatuses.ReportsIff | internal/service/payroll_service.go:72-327 | a call reports success exactly when what it set out to save is saved, or a fired job finds nothing to do |
| PayrollStatuses.SuccessIsDone | internal/service/payroll_service.go:72-327 | a call that reports success has done what it is for |
| PayrollRuns.ProcessingIsForever | internal/service/payroll_processing.go:48-65 | no call changes a run in processing |
| PayrollHistories.LeftInProcessingIff | internal/service/payroll_processing.go:48-99 | a run is in processing after a sequence of calls if and only if one of them got to process it and its marking save was torn, or was good and there was nobody to pay or the closing save was lost |
| PayrollHistories.LeftInProcessingSent | internal/service/payroll_processing.go:48-99 | a run so left has been disbursed if and only if that processing had sent its batch, and its loans are not updated |
| PayrollHistories.PaidRunStaysInProcessing | internal/service/payroll_processing.go:76-99 | every run with somebody to pay can have its batch sent and be left in processing, whatever follows |
| PayrollRuns.CompletedRunUpdatedLoansIff | internal/service/payroll_processing.go:88-104 | a completed run has updated its loans if and only if the closing save of the call that completed it was not torn |
| PayrollRuns.LoansUpdatedIff | internal/service/payroll_processing.go:88-104 | and nothing that follows makes up for it |
| PayrollRuns.VerifyTransfersInDatabase | internal/service/payroll_processing.go:211-241 | whether enough recent rows with the run's prefix are on the first page of two hundred |
| PayrollRuns.BuildTransferRequests | internal/service/payroll_processing.go:168-200 | one request for each payable entry, in order |
| PayrollRuns.RequestedIff | internal/service/payroll_processing.go:168-200 | a run requests exactly the net pay of each entry whose employee was loaded and whose bank is known, under that employee's reference |
| PayrollRuns.RequestedAsMany | internal/service/payroll_processing.go:168-200 | and as many transfers as there are such entries |
| PayrollRuns.ReferenceSpelled | internal/service/payroll_processing.go:191 | the reference spelled out |
| PayrollRuns.DistinctIffPaysOnce | internal/service/payroll_processing.go:168-200 | the references of a batch are distinct if and only if nobody has two payable entries |
| PayrollHistories.PaysOnceIffNeverAmended | internal/repository/postgres/payroll_repo.go:34-36 | when recalculations pay somebody the run pays, nobody has two payable entries if and only if nobody did to begin with and no amendment was saved |
| PayrollHistories.AmendedRunAsksForBoth | internal/repository/postgres/payroll_repo.go:34-36 | an amended draft requests the transfers of both calculations and, when none fails, asks the wallet for both |
| PayrollRuns.PayrollAsksHundredfold | internal/service/payroll_processing.go:192 | when no transfer fails the wallet is asked for a hundred times the net pay |
| PayrollDebits.PayrollWithinLimitsIff | internal/service/transfer_service.go:396-403 | a payroll passes the limits if and only if every payable net pay, in kobo, lies within the limits, in naira |
| PayrollDebits.PayrollIsDebitedHundredfoldIff | internal/service/transfer_batch.go:101-117 | when no transfer fails and no reference is recorded yet, the wallet is debited a hundred times the net pay if and only if it covers that and nobody is paid money a second time |
| PayrollDebits.EachEmployeeDebitedOnceIff | internal/service/wallet_service.go:273-338 | and a hundred times the net pay of each employee's first entry if and only if it covers that |
| PayrollDebits.AmendedRunIsDebitedOnceIff | internal/service/payroll_service.go:259-288 | of an amended draft both calculations are requested, while the wallet is debited the stored pay of those in the first and the recalculated pay only of the others, if and only if it covers that |
| PayrollDebits.RefusedPayIsNotDebited | internal/service/wallet_service.go:291-293 | a payroll whose second withdrawal is refused for lack of balance, unnoticed |
| PayrollRuns.RunsAmortiseExactly | internal/service/payroll_processing.go:101-104 | over every sequence of calls on many runs, each loan is repaid one instalment per entry in a run that updated loans |
| PayrollOverlap.AloneIsProcess | internal/service/payroll_processing.go:40-104 | the four steps of a call with nothing in between are the processing of the run |
| PayrollOverlap.OverlappingCallsDisburse | internal/service/payroll_processing.go:43-76 | any number of interleaved calls send the batch of a run exactly once for each that finds it, marks it, and loads it before any mark has taken effect |
| PayrollOverlap.OverlappingCallsDisburseTwiceIff | internal/service/payroll_processing.go:43-76 | two interleaved calls send its batch twice if and only if both find it, both mark it and both load it before either marks it |
| PayrollVerification.OtherRunsDoNotCount | internal/service/payroll_processing.go:221-229 | the prefix of a run matches its own references only |
| PayrollVerification.VerifiedIff | internal/service/payroll_processing.go:211-241 | a batch is verified if and only if its references are distinct and every one of its transfers has a recent row among the newest two hundred |
| PayrollVerification.CompletesIff | internal/service/payroll_processing.go:83-94 | a run completes if and only if all its transfers are reported successful, or nobody is paid twice and all have such a row |
| PayrollVerification.PayrollFailsUnlessPaid | internal/service/payroll_processing.go:76-99 | a payroll answered by the batch completes if and only if its amounts are allowed, the batch goes through and nothing of it is denied, or its rows are all on the page; otherwise it fails |
| PayrollVerification.LargeRunsAreNotVerified | internal/service/payroll_processing.go:212 | a run of more than two hundred transfers completes only by its reports |
| PayrollVerification.UnpaidRunIsCompleted | internal/service/payroll_processing.go:83-104 | rows written before sending complete a run none of whose transfers succeeded, and reduce its loans |
| PayrollVerification.OutageCompletesPayrollIff | internal/service/payroll_processing.go:76-104 | in a total outage, however the batch is answered, a payroll completes if and only if its amounts are allowed and its batch is split into native calls only, or its rows are all on the page |
| Payslip.Classify | internal/service/payroll_calculation.go:135-163 | gross is the sum of components; the last of a type wins; basic pay falls back to the first so named |
| PayslipTotals.BasicPayIs | internal/service/payroll_calculation.go:150-163 | basic pay is the last component of that type if not zero, else the first so named, else none |
| Payslip.BasicPayNames | internal/service/payroll_calculation.go:156-160 | the names that count as basic pay, in any case |
| Payslip.RuleDeduction | internal/service/payroll_calculation.go:166-176 | the exact amount, a percentage of gross or positive basic pay or a flat one, rounded toward zero by less than a kobo |
| Payslip.CalculateEmployeeEntry | internal/service/payroll_calculation.go:130-324 | every total of an entry is the sum of its details of that type, net is their balance |
| PayslipTotals.PayslipComesTo | internal/service/payroll_calculation.go:130-324 | each total of a payslip from its independent parts: components, rules on that gross and basic pay, statutory amounts, instalments, adjustments by sign and label |
| PayslipTotals.WrittenIff | internal/service/payroll_calculation.go:137-305 | the lines of a payslip: its components, its rules on that gross and basic pay, the positive statutory amounts by name, the loans still owing, the adjustments, and no others |
| PayslipTotals.PayslipTax | internal/service/payroll_calculation.go:185-197 | the statutory amounts of a payslip in figures, from its components and the employee's rent |
| Payslip.AddAdjustments | internal/service/payroll_calculation.go:269-305 | earnings, bonuses and deductions by sign and label, totals kept |
| Payslip.AddLoanRepayments | internal/service/payroll_calculation.go:244-267 | one deduction for each loan still owing |
| Payslip.StatutoryDetailsAddUp | internal/service/payroll_calculation.go:199-242 | statutory and employer details sum to the calculated totals although zero amounts are not written |
| Payslip.PensionBaseWithinGrossIff | internal/service/payroll_calculation.go:155-163 | the pension base is within gross if and only if the fallback takes no component already counted, or what counts for nothing makes up for it |
| Payslip.StatutoryDeductionsAreCapped | internal/service/payroll_calculation.go:185-225 | then a payslip's statutory deductions are at most 32.875 % of earnings |
| Payslip.FallbackCountsTwice | internal/service/payroll_calculation.go:155-163 | a payslip on which the base is twice the gross |
| Payslip.CalculatePayrollRun | internal/service/payroll_calculation.go:66-126 | fails exactly when nobody can be paid; otherwise run totals are sums over entries |
| Payslip.EntriesAre | internal/service/payroll_calculation.go:33-93 | the entries of a run are exactly those of the active employees whose cadre was loaded and has earning components, each with their own adjustments |
| Payslip.RunBalances | internal/service/payroll_calculation.go:90-124 | a calculated run's net = gross + bonuses - deductions, and its cost is the sum of its entries' costs |
| Payslip.OneEntryPerEmployee | internal/service/payroll_calculation.go:74-95 | distinct employees have distinct entries |
| Payslip.LoanDetailsAreDue | internal/service/payroll_calculation.go:244-263 | loan details sum to what the run will take from those loans |
| Payslip.PayslipLoansMatchTheRun | internal/service/payroll_calculation.go:244-263 | with loans unchanged since calculation, what the payslips of a run show as loan repayments is the total drop in balances it causes |
| PayrollSummary.FindDetail | internal/service/report/helpers.go:16-23 | the first detail of the type with the prefix, or none exists |
| PayrollSummary.FindAllDetails | internal/service/report/helpers.go:26-34 | all details of a type, with their total |
| PayrollSummary.GeneratePayrollSummary | internal/service/report/summary.go:32-94 | a row for each entry with an employee, and column sums |
| PayrollSummary.RowsAreOfLoaded | internal/service/report/summary.go:32-36 | the rows are exactly those of the entries whose employee was loaded |
| PayrollSummary.RegisterShowsCalculatedTax | internal/service/report/summary.go:38-43 | the prefixes read back exactly the calculated PAYE, pension and NHF, whatever names the other details have |
| PayslipTotals.RegisterShowsPayslip | internal/service/report/summary.go:38-76 | every column of the register's row of a calculated payslip |
| PayslipTotals.RegisterTotalsMatchTheRun | internal/service/report/summary.go:49-59 | the totals row agrees with the totals of the run it was calculated from |
| PayslipTotals.TotalsAreColumnSums | internal/service/report/summary.go:49-59 | the tax columns of the totals row are the sums of theirs |
| PayrollSummary.RowBalancesIff | internal/service/report/summary.go:43-47 | a row balances if and only if its custom deductions sum to at least zero |
| PayrollSummary.TotalsBalanceIff | internal/service/report/summary.go:49-59 | the totals row balances if and only if every row does |
| PayrollSummary.RegisterBalances | internal/service/report/summary.go:32-94 | with non-negative pay, rules and instalments, every row and the totals row balance |

## Left out

- HTTP handlers, authentication, encryption, mail, documents, billing, the token-bucket limiter, anomaly alerts, leave, name matching, CSV import, the deprecated bulk service: plumbing or easy members.
- Provider clients, GORM, PostgreSQL and Redis: answers quantified over; a CHECK constraint that refuses an update is one of the refusals.
- Amount strings: integers of kobo in the wallet, decimals of naira in a batch; an unreadable amount is a missing one. Reference generation and defaulting of requests.
- Percentage rules: the code multiplies floating-point numbers; the model uses exact reals truncated toward zero.
- Ghana's tax rules (`internal/service/tax/ghana`) and the choice by currency.
- Payslips are modelled in unbounded integers; the 64-bit results are stated for the tax calculation.
- `balance_before`, `balance_after`, timestamps, descriptions, and provider names on stored rows.
- The map from businesses to velocity counters: one business's counter is modelled, created empty on first use.
- The wallet calls of a batch are made one after another with nothing in between; what other calls do meanwhile is the interleaving model's.
- Negative amounts in wallet calls, and so negative net pay in the results on debits.
- WalletServices.WalletService.ExecuteTransfer: the amount limits checked first and the stored transfer's status updates are left out.
- Notifications and goroutines that only send mail.
- The single probe of a half-open breaker: the code does not limit it.
- WalletServices.WalletService.GetBalance: a corrupt cache entry is not distinguished from a missing one.
