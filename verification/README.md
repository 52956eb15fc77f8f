# Verified model of the vault backend

A Dafny 4.11 model of the parts of the backend where a mistake costs money or cannot be undone, with proofs about every
input and every run. `dafny verify dfyconfig.toml` checks all of it.

**Vault distribution.** A cron task pays out a locked vault over many cycles: acquirer extraction or minting first,
contributor payments next, then the liquidity pool, the closing flags and a governance snapshot. `VaultSteps` describes
one vault's cycle: the rows as listed, the calls in order, the per-vault error handling. Everything the coordinator does
not decide (which calls throw, which writes fail, which claims get confirmed on chain and when) is an input, and every
external call is logged with the vault row at that moment. `AutomatedDistribution` is the service itself, with its table
of rows and its running flag; each of its methods is proved to do to every vault what `VaultSteps` says.
`DistributionSafety` holds what every run keeps, `DispatchHashes` which hash a vault gets, `CycleCalls` the exact calls
of each pass, `DistributionOutcomes` the ways a distribution can end other than by being finalised with everything
settled, each exactly characterised, `DistributionProgress` the measure that good cycles decrease, and
`FinalizableVaults` which vaults can be finalised at all. `ClaimBatches` and `PaymentBatches` say how the orchestrators
work through the claims they are handed, which justifies what the coordinator is shown of them; `ExtractionTries` and
`PaymentTurns` say which transactions they try, and when they throw, by the answers they get.

**Acquire-to-governance transition.** `DistributionMath` has the formulas of the calculation service over exact reals,
`OptimalDecimals` its choice of decimals, `AcquireTransition` the simulator's loops, `SimulatedTransition` its whole
answer field by field, `ExportedLists` the two lists in it, `TransitionConservation` the rounding bounds and the
conservation of the token supply, `RepeatedIds` and `RecalculatedRepeats` what becomes of it when contributions share a
transaction id (as the claims are created, and in the end), `MultiplierTable` the exported per-unit table and when it
reproduces the claims.

**Prices.** `PriceStore` is Redis as seen by the pricing code, `PriceLookup` the client and the service in their
one-token and batch forms, `PriceRefresh` the bulk parser and one refresh, `RefreshLock` the lock as a protocol between
any number of instances, `WeeklyCandles` the weekly candle aggregation.

**Value formats.** `Cip674` is the metadata message chunker, `Uint256Column` the column transformer for 256-bit amounts,
`AssetImage` the normaliser for image fields and `ImageResults` what it makes of each kind of field. `Utf16`,
`JsNumbers`, `JsMaps` and `Wrappers` say what JavaScript's strings, division, maps and null do; `Sequences` has what
several modules need of sequences.

Results a maintainer may not expect, each a theorem:

- An acquire-only vault is closed as soon as its orchestrator returns, and that returns without a treasury address and
  after giving up claims: it then counts as processed with acquirers still to be minted, and nobody is called for them
  again (`AcquireOnlyClosesExactly`, `ClaimsAreLeftBehind`, `AcquireOnlyLosesGivenUp`).
- An extraction is recorded with its whole batch before validation, and its confirmation marks the whole batch CLAIMED.
  A claim that validation dropped, over a failed lookup for instance, is then CLAIMED although nothing was extracted or
  minted for it, no longer counts as open and is never tried again (`ClaimedForNothingIffDropped`, `UnmintedExactly`,
  `ClosedWithoutMintingWitness`). Payments are recorded after validation and do not have this (`PaidClaimsWereSent`).
- Claims that are FAILED count as open but no orchestrator picks them up, so a FAILED acquirer claim stops a vault that
  is not acquire-only for good, and a FAILED contributor or expansion claim until a payout for it is confirmed late
  (`FinalizableExactly`, `ReachableExactly`). No writer in the repository sets FAILED on these claims today.
- A vault whose open acquirer claims are expansion claims without a PENDING one is closed by the minting orchestrator
  with its contributors unpaid (`ProcessedExactlyWhenFinalizedOrNothingToMint`).
- An acquire-only vault can be marked processed before its pool is created, and then never gets the pool if that attempt
  throws (`FailedPoolIsNeverRetried`). The orchestrator's closing note says that marking is left to the coordinator; its
  empty case does it itself.
- A pool that was submitted but not recorded is submitted again in the next cycle, unless VyFi reports it by then
  (`ForgottenPoolIsRepeated`); once VyFi reports it, the vault is never processed (`UnrecordedPoolBlocks`).
- Contributions that share a transaction id break supply conservation, by an amount stated exactly; the final claims
  keep the pot just when an id of positive value comes at most twice, the first time worth nothing
  (`FinalPotIsKeptIffHarmless`, `RepeatsOverspendTheSupply`, `DuplicateIdsOverspend`). It is stated for users whose
  totals are positive, and in general by `FinalPotIsKeptIffPaidOnce`.
- The decimal check that is to keep small acquirer multipliers from being floored to zero is handed a floored one, in
  the simulator and in the lifecycle service: it never acts on it, and acquirers can end with nothing
  (`DecimalsIgnoreAcquirers`, `AcquirersGetNothingIff`, `NothingForOneAda`).
- A pool of more than twice the offered percentage asks for more ADA than was acquired, and then every contributor's
  lovelace claim is negative (`CoveredByPercentages`, `LovelaceIsConserved`, `ClaimIsPayableIffPoolIsCovered`).
- One null entry in the bulk response discards all prices (`OneBadEntryLosesAll`).
- The transformer accepts `"0xff"`, which its comment says it refuses (`HexLiteralIsAccepted`).
- A URL decoded from hex metadata is dropped when its scheme has a capital letter (`FoundUrlResult`).

## Model

| member | source | states |
|---|---|---|
| `AutomatedDistribution.AutomatedDistributionService.ProcessVaultDistributions` | src/modules/distribution/automated-distribution.service.ts:84-104 | A tick that finds a cycle in flight changes nothing; otherwise every vault goes through exactly one cycle of its own, whatever order the rows come in and whatever throws for other vaults, and the running flag is down afterwards. |
| `AutomatedDistribution.AutomatedDistributionService.ProcessLockedVaultsForDistribution` | src/modules/distribution/automated-distribution.service.ts:109-206 | The first loop, over rows listed once: each vault ends in the state its own turn gives it; a query that throws leaves all of them alone. |
| `AutomatedDistribution.AutomatedDistributionService.CheckExtractionsAndTriggerPayments` | src/modules/distribution/automated-distribution.service.ts:212-308 | The second loop, over rows and acquirer-claim counts listed once: the same. |
| `AutomatedDistribution.AutomatedDistributionService.Select` | src/modules/distribution/automated-distribution.service.ts:110-135 | The query returns every matching vault exactly once, as it stood, in an unspecified order. |
| `AutomatedDistribution.AutomatedDistributionService.StartVault` | src/modules/distribution/automated-distribution.service.ts:137-205 | One turn of the first loop with its catch: marking, the acquire-only route, parameterisation, claims query and choice of orchestrator; no other vault is touched. |
| `AutomatedDistribution.AutomatedDistributionService.StartExtraction` | src/modules/distribution/automated-distribution.service.ts:155-201 | The choice between minting, extraction, manual mode and nothing, by the open acquirer claims. |
| `AutomatedDistribution.AutomatedDistributionService.EnsureDispatchParameterized` | src/modules/distribution/automated-distribution.service.ts:313-342 | The row gets the new hash, or the call throws with the row as it was; a row that has one is left alone. |
| `AutomatedDistribution.AutomatedDistributionService.CheckVault` | src/modules/distribution/automated-distribution.service.ts:253-305 | One turn of the second loop with its catch. |
| `AutomatedDistribution.AutomatedDistributionService.FinalizeVaultDistribution` | src/modules/distribution/automated-distribution.service.ts:348-437 | Pool, closing write and snapshot, or the rollback of the in-progress flag and a rethrow. |
| `AutomatedDistribution.AutomatedDistributionService.CreateLiquidityPool` | src/modules/distribution/automated-distribution.service.ts:374-410 | The pool branch: skipped with an expansion claim, a zero percentage or no AVAILABLE LP claim; the LP claim is CLAIMED exactly if the call returns. |
| `AutomatedDistribution.PassIsPointwise` | src/modules/distribution/automated-distribution.service.ts:137-205 | A pass over any list of distinct vaults equals stepping each listed vault alone: order and other vaults do not matter. |
| `AutomatedDistribution.TurnTaken` | src/modules/distribution/automated-distribution.service.ts:137-205 | One iteration advances exactly the vault at hand. |
| `VaultSteps.FindLp` | src/modules/distribution/automated-distribution.service.ts:386-388 | The LP claim found is an AVAILABLE one, and none is found only if there is none. |
| `VaultSteps.WebhookSets` | src/modules/vaults/processing-tx/onchain/blockchain-webhook.service.ts:164-205 | Confirmations: an extraction takes only PENDING claims off, a payout contributor and expansion claims of any status, FAILED ones included; nothing else about the claims changes. |
| `DistributionSafety.RunMoves` | src/modules/distribution/automated-distribution.service.ts:118-150 | Main safety theorem, over every run and every outcome of calls and writes: each external call is justified by the vault at that very moment (contributors are paid only with no PENDING or FAILED acquirer claim, a pool or snapshot of a vault that is not acquire-only comes only with everything settled, nothing is called for a processed or manual vault except the closing snapshot and an acquire-only pool, extraction only with a parameterised dispatch); the processed and manual flags and a dispatch hash are never taken back; claims only get settled. |
| `DistributionSafety.StepMoves` | src/modules/distribution/automated-distribution.service.ts:84-104 | The same for one cycle. |
| `DistributionSafety.FlagsNeverBoth` | src/modules/distribution/automated-distribution.service.ts:413-419 | distribution_processed and distribution_in_progress are never true together, over any run. |
| `DistributionSafety.RetiredVaultIsLeftAlone` | src/modules/distribution/automated-distribution.service.ts:118-126 | Once processed or in manual mode, a vault gets no call and no flag write in any later cycle. |
| `DistributionSafety.LiquidityPoolAtMostOnce` | src/modules/distribution/automated-distribution.service.ts:385-419 | Over any run, pools submitted for a vault are at most one plus the cycles in which one of the two writes after a submission fails: with writes that succeed, at most one. |
| `DistributionSafety.ForgottenPoolIsRepeated` | src/modules/vyfi/vyfi.service.ts:1314-1353 | The allowance is used: a settled vault gets one more pool in every cycle whose LP-claim write fails after the submission. |
| `DistributionSafety.LiquidityPoolsAreBoundedByClaims` | src/modules/distribution/automated-distribution.service.ts:386-391 | LP creations that return and AVAILABLE LP claims add up to a constant over every run, failing writes included. |
| `DistributionSafety.MixedVaultIsParked` | src/modules/distribution/automated-distribution.service.ts:190-201 | From the cycle in which both kinds of acquirer claim are seen, nothing is ever extracted, paid or finalised for the vault; its log is stated exactly. |
| `DistributionSafety.FailedAcquirerClaimBlocksForever` | src/modules/distribution/automated-distribution.service.ts:155-162 | One FAILED regular acquirer claim: never processed, never paid, no pool and no snapshot, in any continuation. |
| `DispatchHashes.StepWritesTheAnswer` | src/modules/distribution/automated-distribution.service.ts:313-342 | For every cycle: the vault gets the very hash the call answered exactly when the cycle takes up a regular vault without one and call and write work, and in every other case keeps what it has. |
| `DispatchHashes.ReachedClaimsHaveTheAnswer` | src/modules/distribution/automated-distribution.service.ts:147-155 | A vault without a hash that gets as far as its claims has the answer of that cycle. |
| `DispatchHashes.RunWritesOneAnswer` | src/modules/distribution/automated-distribution.service.ts:313-342 | Over any run at most one cycle writes its answer; the vault ends with exactly that answer, and without such a cycle with the hash it began with. |
| `CycleCalls.ExtractExactly` | src/modules/distribution/orchestrators/acquirer-distribution.orchestrator.ts:88-125 | The acquirer orchestrator outside manual mode exactly: its call, when it throws, which claims it leaves PENDING and FAILED, and that nothing else of the vault changes. |
| `CycleCalls.PayExactly` | src/modules/distribution/orchestrators/contributor-distribution.orchestrator.ts:75-144 | The contributor orchestrator exactly, in the same terms; the manual flag it goes by is that of the listed row. |
| `CycleCalls.FirstPassCallsExactly` | src/modules/distribution/automated-distribution.service.ts:137-205 | For every vault that is not acquire-only and everything that can fail: exactly the calls the first pass makes for it, in order. |
| `CycleCalls.SecondPassCallsExactly` | src/modules/distribution/automated-distribution.service.ts:253-305 | Exactly its calls in the second pass, if and only if which guards hold it closes the vault, and when it stays in distribution. |
| `DistributionOutcomes.FinalizationIsAllOrNothing` | src/modules/distribution/automated-distribution.service.ts:348-437 | Exactly when finalisation throws, exactly which calls it makes (pool if due, snapshot if nothing failed), and both flags afterwards. |
| `DistributionOutcomes.MintExactly` | src/modules/distribution/orchestrators/acquire-only-distribution.orchestrator.ts:51-136 | The acquire-only orchestrator exactly: when it throws, when it closes the vault (it has a treasury address, its query and write work and it finds no PENDING acquirer claim), and which acquirer claims stay open. |
| `DistributionOutcomes.AcquireOnlyClosesExactly` | src/modules/distribution/automated-distribution.service.ts:143-150 | An acquire-only vault exactly: the calls of its cycle, if and only if which guards the cycle closes it (what becomes of its claims is not among them), and the acquirer claims then still open. |
| `DistributionOutcomes.ProcessedExactlyWhenFinalizedOrNothingToMint` | src/modules/distribution/automated-distribution.service.ts:137-205 | If and only if, for every vault: when a cycle leaves it processed without a closing snapshot, and when it leaves it processed with acquirer claims open; otherwise a regular vault has everything settled. |
| `DistributionOutcomes.RegularVaultProcessedExactly` | src/modules/distribution/orchestrators/acquire-only-distribution.orchestrator.ts:105-115 | The regular case of it: without a closing snapshot exactly when the minting orchestrator finds nothing to mint. |
| `DistributionOutcomes.ClaimsAreLeftBehind` | src/modules/distribution/automated-distribution.service.ts:144-149 | Over any later run nobody is called for an acquire-only vault closed with claims open, and those claims stay open unless the chain confirms them all the same. |
| `DistributionOutcomes.RetiredClaims` | src/modules/distribution/automated-distribution.service.ts:118-126 | A processed or manual vault's acquirer claims change by confirmations from outside and by nothing else. |
| `DistributionOutcomes.NoTreasuryWitness` | src/modules/distribution/orchestrators/acquire-only-distribution.orchestrator.ts:84-88 | Without a treasury address an acquire-only vault is closed with its claim PENDING. |
| `DistributionOutcomes.GivenUpBatchWitness` | src/modules/distribution/orchestrators/acquire-only-distribution.orchestrator.ts:167-180 | And with one, when a batch is given up. |
| `DistributionOutcomes.UnrecordedPoolBlocks` | src/modules/vyfi/vyfi.service.ts:1234-1242 | As long as LP creation does not return (because it fails, or because VyFi reports a pool that was never recorded) a regular vault that owes its pool is never processed. |
| `DistributionOutcomes.NothingToMintWitness` | src/modules/distribution/orchestrators/acquire-only-distribution.orchestrator.ts:90-115 | The case happens: the only expansion claim is confirmed between the two looks at it, and a contributor is still owed. |
| `DistributionOutcomes.FailedExpansionClaimWitness` | src/modules/distribution/orchestrators/acquire-only-distribution.orchestrator.ts:90-115 | So it does with a FAILED expansion claim, which only the coordinator counts. |
| `DistributionOutcomes.NothingToMintLeavesContributorsUnpaid` | src/modules/distribution/orchestrators/acquire-only-distribution.orchestrator.ts:105-115 | In that case no contributor is paid, no pool made and no snapshot taken in any later cycle. |
| `DistributionOutcomes.PoolAfterProcessedExactly` | src/modules/distribution/automated-distribution.service.ts:144-149 | If and only if: a pool is attempted for a vault already marked processed exactly when the acquire-only orchestrator closed it first and a pool is due. |
| `DistributionOutcomes.FailedPoolIsNeverRetried` | src/modules/distribution/automated-distribution.service.ts:144-149 | If that attempt throws, the vault stays processed without its pool in every continuation. |
| `DistributionProgress.StepKeepsLive` | src/modules/distribution/automated-distribution.service.ts:84-104 | A live vault stays live and its measure never grows, in good and bad cycles alike. |
| `DistributionProgress.GoodStep` | src/modules/distribution/automated-distribution.service.ts:109-305 | Every good cycle decreases the measure, across both passes. |
| `DistributionProgress.OrchestrationMakesProgress` | src/modules/distribution/orchestrators/acquirer-distribution.orchestrator.ts:97-125 | A productive orchestrator call leaves fewer PENDING claims, whatever is confirmed behind its back. |
| `DistributionProgress.GoodPayment` | src/modules/distribution/orchestrators/contributor-distribution.orchestrator.ts:75-144 | A productive payment call leaves fewer PENDING contributor and expansion claims, or none, and fails none. |
| `DistributionProgress.ProcessedAfterEnoughGoodCycles` | src/modules/distribution/automated-distribution.service.ts:109-305 | In any run with at least max(acquirers, 1) + max(payees, 1) - 1 good cycles, bad ones in between at will, a live vault is processed. |
| `DistributionProgress.ProcessedMeansFinalized` | src/modules/distribution/automated-distribution.service.ts:353-431 | For a live vault, processed means finalised: a snapshot was taken and every acquirer, contributor and expansion claim is settled. |
| `DistributionProgress.FinalizedAfterEnoughGoodCycles` | src/modules/distribution/automated-distribution.service.ts:109-305 | The same bound for being finalised. |
| `ClaimBatches.ProcessExtractions` | src/modules/distribution/orchestrators/acquirer-distribution.orchestrator.ts:116-124 | The loop over batches of sixteen, with everything the splitting does underneath; a confirmed transaction settles every claim its record lists, and that is the whole batch as it was before validation. |
| `ClaimBatches.ExtractionsAccountForClaims` | src/modules/distribution/orchestrators/acquirer-distribution.orchestrator.ts:116-194 | Every claim handed over ends, in order, in exactly one transaction that returned or was given up; at most two tries per claim; a throw leaves a prefix finished; no other claim is settled. |
| `ClaimBatches.SplittingSettlesAll` | src/modules/distribution/orchestrators/acquirer-distribution.orchestrator.ts:191-193 | If single-claim transactions go through, every claim is settled, however large batches fail, and each of them was sent or found spent. |
| `ClaimBatches.ExtractionIsSettle` | src/modules/distribution/orchestrators/acquire-only-distribution.orchestrator.ts:117-136 | What the coordinator sees of the orchestrators is met by their batching. |
| `ClaimBatches.ExtractionIsProductive` | src/modules/distribution/orchestrators/acquire-only-distribution.orchestrator.ts:254-269 | ... and so is the assumption of the progress theorems, when single-claim transactions go through. |
| `ExtractionTries.TriesFollowTheChain` | src/modules/distribution/orchestrators/acquirer-distribution.orchestrator.ts:166-194 | Every transaction tried, by what its execution answers and nothing else: it ended if and only if the execution returned; a failed batch is given up if and only if it holds one claim or missed a UTxO, and then no claim of it is in any later try; otherwise, if nothing throws, the larger half is tried next and every claim again later in a smaller batch. |
| `ExtractionTries.FirstBatchIsTaken` | src/modules/distribution/orchestrators/acquirer-distribution.orchestrator.ts:116-124 | The first try is made of the first sixteen claims, or all if there are fewer; there is none if and only if its record cannot be written. |
| `ExtractionTries.ExtractionsThrowIffAWriteFails` | src/modules/distribution/orchestrators/acquirer-distribution.orchestrator.ts:129-194 | If and only if: the work throws exactly when a write failed, the record of the batch that comes after the finished claims or the one after the try made last failed. |
| `ExtractionTries.MissingUtxoIsNotSplit` | src/modules/distribution/orchestrators/acquire-only-distribution.orchestrator.ts:173-179 | Two claims whose batch misses a UTxO are tried once, whatever would have become of each alone. |
| `PaymentBatches.DetermineOptimalBatchSize` | src/modules/distribution/orchestrators/contributor-distribution.orchestrator.ts:231-300 | The probing loop yields the size, or fails with the UTxO query. |
| `PaymentBatches.SizeIsLargestThatFits` | src/modules/distribution/orchestrators/contributor-distribution.orchestrator.ts:255-299 | The size is the largest up to which every smaller size fits, and 1 if not even one claim fits. |
| `PaymentBatches.ProcessBatchedClaims` | src/modules/distribution/orchestrators/contributor-distribution.orchestrator.ts:149-226 | The payment loop with its catch, retries and early end. |
| `PaymentBatches.PaymentsAccountForClaims` | src/modules/distribution/orchestrators/contributor-distribution.orchestrator.ts:158-223 | Every claim ends, in order, in exactly one payment that went out or was given up after a try of its own; at most two tries per claim; running out of UTxOs leaves a prefix finished. |
| `PaymentTurns.PaymentsFollowTheAnswers` | src/modules/distribution/orchestrators/contributor-distribution.orchestrator.ts:158-219 | Every payment tried, by what the probes and payments answer and nothing else: its batch (the first claim alone right after a refused batch or a failed probe, else the largest that fits), whether it went out, and that it is given up if and only if it is that single claim and was refused. |
| `PaymentTurns.PaymentsThrowIff` | src/modules/distribution/orchestrators/contributor-distribution.orchestrator.ts:187-226 | If and only if: the payments throw exactly when the payment tried last, or the next probe over two or more claims, ran out of UTxOs; otherwise every claim is finished. |
| `PaymentTurns.FirstProbeDecides` | src/modules/distribution/orchestrators/contributor-distribution.orchestrator.ts:187-219 | A first probe that finds no UTxOs ends the work before anything is tried; one that fails otherwise leads to the first claim alone. |
| `PaymentBatches.PaymentIsSettle` | src/modules/distribution/orchestrators/contributor-distribution.orchestrator.ts:142-144 | What the coordinator sees of the payments is met by their batching. |
| `DistributionProgress.AcquireOnlyClosesInOneGoodCycle` | src/modules/distribution/automated-distribution.service.ts:143-150 | One good cycle closes an acquire-only vault with its snapshot, whatever its claims. |
| `DistributionProgress.ProcessedAcquireOnlyMeansSettled` | src/modules/distribution/automated-distribution.service.ts:143-150 | With a treasury address, nothing FAILED and minting that leaves no claim PENDING, a processed acquire-only vault has no open acquirer claim, and a snapshot if the closing steps work. That its acquirers were minted is more, see ClosedMeansMinted and UnmintedExactly. |
| `FinalizableVaults.FinalizableExactly` | src/modules/distribution/automated-distribution.service.ts:118-305 | If and only if: without confirmations from outside, a vault that is not processed is finalised in some run exactly when it is not manual and either is acquire-only and listed, or has nothing FAILED and is listed with acquirer claims of one kind (and a treasury address for the expansion kind) or already in the distribution with none open. |
| `FinalizableVaults.ReachableExactly` | src/modules/vaults/processing-tx/onchain/blockchain-webhook.service.ts:164-205 | If and only if: with confirmations, late payouts included, exactly manual mode, a FAILED acquirer claim and not being listed keep a regular vault from being finalised. |
| `FinalizableVaults.FailedPayeeBlocksUntilPaidOut` | src/modules/distribution/orchestrators/contributor-distribution.orchestrator.ts:86-98 | A FAILED contributor or expansion claim keeps its vault from being finalised in every run without a payout confirmation for it. |
| `ClaimBatches.AcquireOnlyLosesGivenUp` | src/modules/distribution/orchestrators/acquire-only-distribution.orchestrator.ts:117-193 | The claims an acquire-only vault is closed with open are exactly the FAILED ones and those its orchestrator gave up, unless confirmed all the same. |
| `ClaimBatches.ClaimedForNothingIffDropped` | src/modules/distribution/orchestrators/acquirer-distribution.orchestrator.ts:153-246 | If and only if, for every chain of outcomes, thrown or not: a claim is recorded as extracted although it was never sent nor found spent exactly when validation dropped it from a transaction that was confirmed with others in it and no other try sent it or found it spent. |
| `ClaimBatches.ClaimedForNothingWitness` | src/modules/vaults/processing-tx/onchain/blockchain-webhook.service.ts:188-201 | The case happens: two claims in one batch, the lookup of one fails, both are CLAIMED on confirmation and one was sent. |
| `ClaimBatches.UnmintedExactly` | src/modules/distribution/orchestrators/acquire-only-distribution.orchestrator.ts:151-218 | The claims that were neither sent nor found spent are exactly two disjoint kinds: those given up unsent, which stay PENDING, and those dropped from a confirmed transaction, which are CLAIMED and no longer count as open. |
| `ClaimBatches.ClosedMeansMinted` | src/modules/distribution/orchestrators/acquire-only-distribution.orchestrator.ts:117-136 | If single-claim transactions go through, an acquire-only vault without FAILED claims is closed with no claim open, and every claim its orchestrator found was sent or found spent. |
| `ClaimBatches.ClosedWithoutMintingWitness` | src/modules/distribution/orchestrators/acquire-only-distribution.orchestrator.ts:151-218 | Otherwise it need not be: one failed lookup closes the vault with no claim open and nobody called in any later cycle, with one of two acquirers never minted. |
| `ClaimBatches.LeftPendingIffGivenUp` | src/modules/distribution/orchestrators/acquirer-distribution.orchestrator.ts:153-246 | If and only if, whatever validation drops or finds spent and whatever is confirmed late: a claim is still PENDING afterwards exactly when its own transaction was given up (alone, or over a missing UTxO), had nothing valid to send or lost the write of its confirmation, and the claim was never found spent nor confirmed by a transaction that had failed here. |
| `PaymentBatches.LeftUnpaidIffGivenUp` | src/modules/distribution/orchestrators/contributor-distribution.orchestrator.ts:187-219 | If and only if, in the same generality: a claim is still owed at the end exactly when its payment was refused on its own, went out without it or lost the write of its confirmation, and the claim was never found spent nor confirmed by a payment that failed here. |
| `PaymentBatches.PaidClaimsWereSent` | src/modules/distribution/orchestrators/contributor-distribution.orchestrator.ts:335-343 | Payments list their claims after validation, so unlike extractions they record no claim as CLAIMED that was neither sent nor found spent. |
| `WeeklyCandles.AggregateDailyToWeekly` | src/modules/dexhunter/dexhunter-pricing.client.ts:314-385 | The single pass with its final flush yields the summaries of the maximal runs of equal weeks among the surviving candles. |
| `WeeklyCandles.WeeklyIsGroupBy` | src/modules/dexhunter/dexhunter-pricing.client.ts:340-384 | Refinement, field by field: for candles in time order, one weekly candle per week that holds any, in strictly increasing order, each stamped with a multiple of 604800 and holding the open of the first and the close of the last candle of the 604800 seconds from there, bounds of its highs and lows that are reached, and the sum of its volumes. |
| `WeeklyCandles.RunsGroupByWeek` | src/modules/dexhunter/dexhunter-pricing.client.ts:347-370 | The runs are exactly the groups by week, in increasing order, and no week is missing. |
| `WeeklyCandles.RunsLoseNothing` | src/modules/dexhunter/dexhunter-pricing.client.ts:347-382 | Whatever the order of times, the runs put end to end are the input. |
| `WeeklyCandles.WeeklyKeepsVolume` | src/modules/dexhunter/dexhunter-pricing.client.ts:362-380 | Total volume is conserved. |
| `WeeklyCandles.ExtremesAreReached` | src/modules/dexhunter/dexhunter-pricing.client.ts:359-360 | The weekly high and low bound all candles of the week and belong to one of them. |
| `WeeklyCandles.WeeklyStaysWellFormed` | src/modules/dexhunter/dexhunter-pricing.client.ts:356-363 | Weekly candles are well formed if the daily ones are, and their high and low come from daily ones. |
| `WeeklyCandles.SortSorts` | src/modules/dexhunter/dexhunter-pricing.client.ts:327 | The sort behind the median returns an ascending permutation of the closes. |
| `WeeklyCandles.MedianIsAClose` | src/modules/dexhunter/dexhunter-pricing.client.ts:327-328 | The median is the close of one of the active candles. |
| `WeeklyCandles.MedianSplitsCloses` | src/modules/dexhunter/dexhunter-pricing.client.ts:327-328 | The median by rank: a close with at most half of them below it and more than half at most equal to it. |
| `WeeklyCandles.SurvivorsArePicked` | src/modules/dexhunter/dexhunter-pricing.client.ts:323-338 | If and only if: a candle survives, in its place, exactly when it has a volume and passes the outlier test against the median close of all those that have one. |
| `WeeklyCandles.KeptMeans` | src/modules/dexhunter/dexhunter-pricing.client.ts:330-334 | If and only if: for a positive median the outlier test, with division by zero as JavaScript does it, keeps a candle exactly when high < 10 median and low is above median / 10 or negative. |
| `WeeklyCandles.WeeklyStaysNearMedian` | src/modules/dexhunter/dexhunter-pricing.client.ts:327-382 | With positive closes and lows every weekly high is below ten times the median close and every weekly low above a tenth of it. |
| `WeeklyCandles.BuildSeries` | src/modules/dexhunter/dexhunter-pricing.client.ts:428-500 | The series built from an answer, in fields: point i with its open, high, low, close and volume, stamped i periods (3600 or 86400 seconds) after the start of the request; aggregated from daily candles when weekly; nothing for an unsupported interval or empty data. |
| `WeeklyCandles.WeeklyRequestIsBounded` | src/modules/dexhunter/dexhunter-pricing.client.ts:432-500 | A weekly request for n intervals answered with at most 7n points gives at most n + 1 weekly candles, and at most n when the request time is on the week grid. |
| `PriceLookup.DexHunterPricingClient.GetRedisPrices` | src/modules/dexhunter/dexhunter-pricing.client.ts:80-115 | The batch read maps each requested token once, in order of first request, to what the single read gives. |
| `PriceLookup.DexHunterPricingClient.GetTokenPrices` | src/modules/dexhunter/dexhunter-pricing.client.ts:193-293 | The result domain is exactly the request; each answer is the one-token meaning; each uncached token is fetched exactly once, and exactly the positive answers are cached. |
| `PriceLookup.DexHunterPricingClient.SplitByCache` | src/modules/dexhunter/dexhunter-pricing.client.ts:218-228 | Hits go into the result, misses into the list to fetch, in order. |
| `PriceLookup.DexHunterPricingClient.FetchInBatches` | src/modules/dexhunter/dexhunter-pricing.client.ts:235-290 | The batches of ten together fetch every miss once and cache as one sequential pass would. |
| `PriceStore.ReadAfterWrite` | src/modules/dexhunter/dexhunter-pricing.client.ts:122-132 | A price that was written reads back for ten minutes and no longer, and writing it touches no other token. |
| `PriceLookup.DexHunterPricingService.GetTokenPrice` | src/modules/dexhunter/dexhunter-pricing.service.ts:195-212 | The one-token form, and it keeps the store sound. |
| `PriceLookup.DexHunterPricingService.GetTokenPrices` | src/modules/dexhunter/dexhunter-pricing.service.ts:221-248 | The batch form: exactly the requested tokens, each at its batch price; the calls made are exactly one per distinct uncached token other than lovelace. |
| `PriceLookup.FormsAgreeIffCacheIsPositive` | src/modules/dexhunter/dexhunter-pricing.service.ts:195-248 | If and only if: the two forms agree on a token exactly when its cached price, if there is one, is positive. |
| `PriceLookup.SinglePriceIs` | src/modules/dexhunter/dexhunter-pricing.service.ts:195-212 | If and only if: the one-token form gives a price exactly when it is cached and positive, or nothing positive is cached and the client finds it, which asks the API only if nothing is cached at all. |
| `PriceLookup.BatchPriceIs` | src/modules/dexhunter/dexhunter-pricing.service.ts:221-248 | If and only if: the batch form gives a price exactly when it is cached, whatever its sign, or nothing is cached and the client finds it. |
| `PriceLookup.FormsAgree` | src/modules/dexhunter/dexhunter-pricing.service.ts:195-248 | On every store the writers can produce they agree on every token, and give only positive prices. |
| `PriceLookup.ToFetchMembers` | src/modules/dexhunter/dexhunter-pricing.client.ts:205-233 | The calls of a request: distinct, and exactly the requested tokens that are neither lovelace nor cached. |
| `PriceLookup.CachingKeepsSound` | src/modules/dexhunter/dexhunter-pricing.client.ts:267-289 | Only positive prices are ever cached, stamped now with the full time to live. |
| `PriceLookup.FetchedIsCached` | src/modules/dexhunter/dexhunter-pricing.client.ts:282-289 | A token fetched at a price is a cache hit at that price afterwards. |
| `PriceRefresh.FetchVyFiBulkPrices` | src/modules/dexhunter/dexhunter-pricing.service.ts:75-114 | The parsing loop computes the bulk result, including where it throws. |
| `PriceRefresh.ParseRatios` | src/modules/dexhunter/dexhunter-pricing.service.ts:94-105 | The inner loop stops at the first lovelace pair with a positive ratio, or throws on a null pair. |
| `PriceRefresh.OneBadEntryLosesAll` | src/modules/dexhunter/dexhunter-pricing.service.ts:79-119 | If and only if: the whole response is lost exactly when some entry makes the parser look into null. |
| `PriceRefresh.EntryIsReadAs` | src/modules/dexhunter/dexhunter-pricing.service.ts:82-106 | If and only if, by property names: an entry is priced by a positive priceADA, else by the first pair under lpRatio that starts with "lovelace/" and has a positive priceRatioAB; it throws exactly when it, or a lovelace pair come to before that, is null. |
| `PriceRefresh.FirstDashGoes` | src/modules/dexhunter/dexhunter-pricing.service.ts:107 | The unit of an entry is its key without its first dash; a key without one stays as it is. |
| `PriceRefresh.CountIsPricedEntries` | src/modules/dexhunter/dexhunter-pricing.service.ts:107-114 | The reported count is the number of entries that have a price. |
| `PriceRefresh.BulkHoldsLastPrices` | src/modules/dexhunter/dexhunter-pricing.service.ts:107-110 | The map holds, for each unit, the positive price of the last entry that has one for it, and nothing else. |
| `PriceRefresh.PricedUnitsAreHeld` | src/modules/dexhunter/dexhunter-pricing.service.ts:107-110 | Every unit with a priced entry is in the map. |
| `PriceRefresh.CountCoversUnits` | src/modules/dexhunter/dexhunter-pricing.service.ts:107-114 | The reported count is at least the number of units and at most the number of entries. |
| `PriceRefresh.RefreshVyFiCache` | src/modules/dexhunter/dexhunter-pricing.service.ts:133-158 | Skipped while the lock is held or off mainnet; otherwise the lock is taken and stays taken, prices or not, and all prices of the response are written. |
| `RefreshLock.AcquisitionsAreSpaced` | src/modules/dexhunter/dexhunter-pricing.service.ts:127-145 | For any number of instances and any interleaving, two successful acquisitions are at least 540 seconds apart. |
| `RefreshLock.OverlapNeedsSlowRefresh` | src/modules/dexhunter/dexhunter-pricing.service.ts:127-158 | Two refreshes overlap only if the earlier has been running for at least 540 seconds. |
| `RefreshLock.AttemptSucceedsIff` | src/modules/dexhunter/dexhunter-pricing.service.ts:139-145 | If and only if: an attempt succeeds exactly when Redis answers and 540 seconds have passed since the last success, a failed refresh blocking like a successful one. |
| `RefreshLock.CachedPricesAreFresh` | src/modules/dexhunter/dexhunter-pricing.client.ts:28 | Every price that can be read is positive and was written less than 600 seconds ago. |
| `RefreshLock.ReadIsLastWritten` | src/modules/dexhunter/dexhunter-pricing.client.ts:58-156 | Over any interleaving of refreshes, single writes, clearings and outages, a read answers exactly with the last price stored for the token if that is less than ten minutes old, not cleared and the server is up. |
| `RefreshLock.NextKeepsInv` | src/modules/dexhunter/dexhunter-pricing.client.ts:122-156 | Every event keeps the store sound and the lock tied to the last acquisition. |
| `DistributionMath.PerUnitFloor` | src/modules/diagnostics/acquire-transition-test.controller.ts:376-381 | Handing out an amount as a whole number per unit loses less than one per unit and never overpays. |
| `DistributionMath.LpAdjustedBounds` | src/modules/distribution/distribution-calculation.service.ts:287-298 | The LP's on-chain VT amount never exceeds its exact share, which is between zero and the supply, and misses it by less than one unit per lovelace acquired. |
| `DistributionMath.LpAdaIsItsShare` | src/modules/distribution/distribution-calculation.service.ts:232-289 | The LP's ADA is its share of half the valuation to within half a lovelace, and the valuation is the acquired total scaled up to within half a cent. |
| `DistributionMath.LpTokensExactly` | src/modules/distribution/distribution-calculation.service.ts:275-298 | The pool exactly: nothing without a percentage or anything to value; else half its percentage of the supply, and per lovelace acquired as many whole units as fit. |
| `DistributionMath.CoveredExactly` | src/modules/distribution/distribution-calculation.service.ts:266-289 | If and only if: the pool asks for no more ADA than was acquired exactly when its percentage of half the valuation, in lovelace, is less than half a lovelace above the whole lovelace acquired. |
| `DistributionMath.CoveredByPercentages` | src/modules/distribution/distribution-calculation.service.ts:266-289 | In percentages: less than twice the offered percentage is covered, more is not, up to the rounding of the valuation to a cent and of the pool to a lovelace. |
| `DistributionMath.PoolCanOutgrowAcquired` | src/modules/distribution/distribution-calculation.service.ts:266-289 | A pool can ask for more ADA than was acquired. |
| `DistributionMath.AcquirerMultiplierIsCommon` | src/modules/distribution/distribution-calculation.service.ts:162-174 | In exact arithmetic every acquirer gets the same multiplier, whatever they sent. |
| `SimulatedTransition.SimulateTransition` | src/modules/diagnostics/acquire-transition-test.controller.ts:110-439 | The whole flow on every input, in the fields of its answer: it refuses if and only if the pool has a percentage and too little lovelace; an amount is no finite number if and only if an acquirer meets a total of zero or a claimed contribution an asset of quantity zero; else the raised decimals, supply and pool, one claim per positive acquisition and per contribution of positive value, in order and with their names, and both exported lists. |
| `SimulatedTransition.AnswerIsDescribed` | src/modules/diagnostics/acquire-transition-test.controller.ts:180-439 | The same of the answer put together from what each step computes. |
| `SimulatedTransition.PoolHolds` | src/modules/diagnostics/acquire-transition-test.controller.ts:119-180 | What the claims are cut from: the sum of the acquisitions, for each id the sum of quantity times floor price of its last contribution, for each user the worth of all of theirs, the offered percentage, and the pool. |
| `ExportedLists.ListsAreExported` | src/modules/diagnostics/acquire-transition-test.controller.ts:414-439 | Both exported lists in their fields: one row per distinct key in each, in the same order, with that key's policy and name and the VT share of its first line in the one, the ADA share in the other; the VT list, and only it, ends with the acquirers' row and their smallest multiplier exactly when there is an acquirer claim. |
| `ExportedLists.RowsListAssets` | src/modules/diagnostics/acquire-transition-test.controller.ts:414-432 | There is a row for every asset of every contribution that has a claim, and for nothing else. |
| `OptimalDecimals.DigitsAreLeast` | src/modules/distribution/distribution-calculation.service.ts:424-435 | The digits asked for against underflow are the least number that lifts the multiplier to one. |
| `OptimalDecimals.LpLosesAPercentIff` | src/modules/distribution/distribution-calculation.service.ts:438-452 | If and only if: the LP costs two digits exactly when flooring its ratio loses more than one percent of it. |
| `OptimalDecimals.MultiplierIsLifted` | src/modules/distribution/distribution-calculation.service.ts:396-466 | If and only if: with the decimals asked for, a multiplier that is positive at six decimals is at least one exactly when it was at least a hundredth there, because of the cap of eight. |
| `OptimalDecimals.FlooredMultiplierIsIgnored` | src/modules/vaults/phase-management/lifecycle/lifecycle.service.ts:1077-1091 | A multiplier that is floored already never costs a digit: the answer is six or eight, and the LP alone decides. |
| `TransitionConservation.DecimalsIgnoreAcquirers` | src/modules/diagnostics/acquire-transition-test.controller.ts:183-197 | So it is in the transition, for every vault and all transactions: the branch against underflow never runs. |
| `TransitionConservation.AcquirersGetNothingIff` | src/modules/diagnostics/acquire-transition-test.controller.ts:183-297 | If and only if: every acquirer ends with multiplier zero and no tokens exactly when their part of the final supply is less than one unit per lovelace sent. |
| `TransitionConservation.NothingForOneAda` | src/modules/diagnostics/acquire-transition-test.controller.ts:183-197 | It happens, for a tenth of a million units against one ADA; handed the multiplier before its floor, the check would ask for the decimal that helps. |
| `AcquireTransition.NaNIffZeroQuantity` | src/modules/diagnostics/acquire-transition-test.controller.ts:374-381 | If and only if: with JavaScript division a recalculated amount is a number, and the one computed here, exactly when no quantity is zero; else it is NaN. |
| `AcquireTransition.MultiplierIsFiniteIff` | src/modules/distribution/distribution-calculation.service.ts:162-174 | If and only if: an acquirer multiplier is a finite number exactly when the acquired total is not zero. |
| `AcquireTransition.ValueTotals` | src/modules/diagnostics/acquire-transition-test.controller.ts:123-133 | Values by transaction id (a later one overwriting), totals by user (accumulating), and the total of the former. |
| `AcquireTransition.AcquirerClaims` | src/modules/diagnostics/acquire-transition-test.controller.ts:259-296 | One claim per positive amount, then every claim at the smallest multiplier. |
| `AcquireTransition.NormalizeInPlace` | src/modules/diagnostics/acquire-transition-test.controller.ts:289-296 | The claims are overwritten with the minimum of all multipliers. |
| `AcquireTransition.ContributorClaims` | src/modules/diagnostics/acquire-transition-test.controller.ts:308-338 | One claim per contribution of positive value. |
| `AcquireTransition.RecalculateAssets` | src/modules/diagnostics/acquire-transition-test.controller.ts:371-396 | Both recalculated sums and the table, asset by asset. |
| `AcquireTransition.RecalculateClaims` | src/modules/diagnostics/acquire-transition-test.controller.ts:364-408 | The recalculation loop over all contributions, overwriting claims in place, and the table it builds. |
| `AcquireTransition.ExportTable` | src/modules/diagnostics/acquire-transition-test.controller.ts:421-432 | The two exported lists hold one row per table entry, in map order. |
| `TransitionConservation.RecalculationLosesLessThanUnits` | src/modules/diagnostics/acquire-transition-test.controller.ts:371-404 | For positive quantities the recalculated amount never exceeds the original claim and falls short by strictly less than the units contributed, VT and lovelace alike, for any claim amount. |
| `TransitionConservation.EachClaimRecalculatedOnce` | src/modules/diagnostics/acquire-transition-test.controller.ts:364-408 | With distinct transaction ids every claim is recalculated exactly once, from its original amounts and its own assets. |
| `TransitionConservation.UserTotalsAreSums` | src/modules/diagnostics/acquire-transition-test.controller.ts:127-131 | The user map holds, for every user, the sum of what their contributions are worth. |
| `TransitionConservation.LpRatioIsUnfloored` | src/modules/diagnostics/acquire-transition-test.controller.ts:183-190 | The ratio handed to the decimal check is the LP's multiplier before its floor; there is none without a pool. |
| `TransitionConservation.ValueOfEachTx` | src/modules/diagnostics/acquire-transition-test.controller.ts:127-131 | With distinct ids the value map holds each contribution's own value. |
| `TransitionConservation.TotalWithDistinctIds` | src/modules/diagnostics/acquire-transition-test.controller.ts:133 | ... and the total is the sum of all contributions. |
| `TransitionConservation.ClaimIsFlooredPortion` | src/modules/distribution/distribution-calculation.service.ts:187-218 | Each contributor claim is the floor of the transaction's exact portion of the pot, whichever user it belongs to. |
| `TransitionConservation.ContributorsShareThePot` | src/modules/diagnostics/acquire-transition-test.controller.ts:306-408 | Together the recalculated claims never exceed the VT pot nor the lovelace pot, and leave at most one per claim plus one per unit. |
| `TransitionConservation.ClaimIsPayableIffPoolIsCovered` | src/modules/distribution/distribution-calculation.service.ts:210-218 | If and only if: a contributor gets a lovelace claim that is not negative exactly when the pool takes no more ADA than was acquired. |
| `TransitionConservation.LovelaceIsConserved` | src/modules/diagnostics/acquire-transition-test.controller.ts:306-408 | If and only if: what the pool takes and what the contributors can be paid (a negative claim nothing) stay within what was acquired exactly when the pool is covered; if not, the contributors are owed nothing at all. |
| `TransitionConservation.VaultLovelaceIsConserved` | src/modules/diagnostics/acquire-transition-test.controller.ts:119-180 | If and only if, for a vault in terms of its own totals and percentages: the same. |
| `TransitionConservation.NormalizationOnlyTakes` | src/modules/diagnostics/acquire-transition-test.controller.ts:289-296 | For arbitrary multipliers, normalising never gives anyone more, and everyone ends at the minimum. |
| `TransitionConservation.MinIsLeast` | src/modules/diagnostics/acquire-transition-test.controller.ts:290 | The minimum multiplier is a lower bound and is one of the multipliers. |
| `TransitionConservation.RawClaimsShareMultiplier` | src/modules/distribution/distribution-calculation.service.ts:162-174 | In exact arithmetic the raw claims agree on the multiplier and add up to it times what was sent. |
| `TransitionConservation.AcquirersShareTheirPart` | src/modules/diagnostics/acquire-transition-test.controller.ts:257-296 | So normalisation changes nothing there, and the acquirers get their part of the supply short by less than one unit per lovelace. |
| `TransitionConservation.SupplyIsConserved` | src/modules/diagnostics/acquire-transition-test.controller.ts:441-457 | Conservation: acquirers, contributors and LP together never exceed the final supply, and what is left over is bounded dust. |
| `MultiplierTable.TableLookup` | src/modules/diagnostics/acquire-transition-test.controller.ts:383-395 | The table maps a key to the shares of its first occurrence with the number of occurrences, and nothing else. |
| `MultiplierTable.OneRowPerKey` | src/modules/diagnostics/acquire-transition-test.controller.ts:421-432 | The exported list has exactly one row per distinct key of the claimed contributions, holding the first occurrence's shares. |
| `MultiplierTable.TableMatchesIffOneShare` | src/modules/diagnostics/acquire-transition-test.controller.ts:390-395 | If and only if: the table entry is the share of every occurrence exactly when no key occurs with two different shares. |
| `MultiplierTable.TableReproducesClaims` | src/modules/diagnostics/acquire-transition-test.controller.ts:364-432 | Then quantity times table entry, summed over the assets, is every recalculated claim, VT and lovelace. |
| `MultiplierTable.TableWithinUnits` | src/modules/diagnostics/acquire-transition-test.controller.ts:364-432 | In terms a caller can check beforehand: with distinct ids, quantities of at least one and one floor price per key, two shares of a key differ by at most one, and quantity times table entry misses every claim by at most one per unit. |
| `RepeatedIds.PotIsSharedIffNoIdIsPaidTwice` | src/modules/diagnostics/acquire-transition-test.controller.ts:306-343 | Of the claims as they are created, before the recalculation and before flooring, if and only if: they add up to a pot that is not empty exactly when no id is paid twice. |
| `RepeatedIds.PaidTwiceIsClaimedTwice` | src/modules/diagnostics/acquire-transition-test.controller.ts:310-313 | If and only if: when every claimed contribution belongs to a user whose total is positive, that is that no id of positive value occurs twice. |
| `RepeatedIds.ExactClaimsAddUp` | src/modules/distribution/distribution-calculation.service.ts:187-218 | Before flooring and recalculation, all claims together are the pot plus the portion of what the repeated ids are worth. |
| `RecalculatedRepeats.RescaledClaim` | src/modules/diagnostics/acquire-transition-test.controller.ts:350-408 | What the recalculation makes of a claim apart from floors: the first with an id is multiplied by what every contribution with that id is worth against the value kept for it, the others stay as they are. |
| `RecalculatedRepeats.FinalClaimsAddUp` | src/modules/diagnostics/acquire-transition-test.controller.ts:350-408 | Apart from floors, the final claims together are the pot plus the portion of the surpluses: of every contribution but the last with its id, what its claim comes to in the end. |
| `RecalculatedRepeats.FinalPotIsKeptIffPaidOnce` | src/modules/diagnostics/acquire-transition-test.controller.ts:350-408 | If and only if, for all contributions: the final claims, apart from floors, add up to a pot that is not empty exactly when every contribution but the last with its id is unpaid, or is the first and one with the id is worth nothing. |
| `RecalculatedRepeats.FinalPotIsKeptIffHarmless` | src/modules/diagnostics/acquire-transition-test.controller.ts:127-133 | If and only if, in the contributions alone, when every claimed one belongs to a user whose total is positive: no id of positive value is handed in more than twice, and one handed in twice is worth nothing the first time. |
| `RecalculatedRepeats.RecalculatedClaim` | src/modules/diagnostics/acquire-transition-test.controller.ts:350-408 | With the floors, each claim stays within its slack below that: one for its own floor, carried through the rescaling, and one per unit recalculated. |
| `RecalculatedRepeats.RepeatsOverspendThePot` | src/modules/diagnostics/acquire-transition-test.controller.ts:306-408 | After flooring and recalculation, whatever the repeats are worth: the contributors get the pot plus the portion of the surpluses, VT and lovelace alike, short by at most the dust. |
| `RecalculatedRepeats.RepeatsOverspendTheSupply` | src/modules/diagnostics/acquire-transition-test.controller.ts:441-457 | The grand total exceeds the supply by what the surpluses are worth, up to the dust. |
| `RecalculatedRepeats.DuplicateIdsOverspend` | src/modules/diagnostics/acquire-transition-test.controller.ts:127-133 | For every vault without acquirers and pool: one contribution handed in twice under one id makes the grand total almost twice the supply. |
| `Cip674.ChunkCip674Message` | src/common/cardano/cip674-metadata.ts:7-35 | The loop ends on every string and yields the chunks of its recursive form. |
| `Cip674.FormatCip674MetadataMessage` | src/common/cardano/cip674-metadata.ts:38-40 | The metadata message is the chunks at the default limits. |
| `Cip674.BreakPoint` | src/common/cardano/cip674-metadata.ts:23-28 | The cut is never at the start and never beyond the limit, beyond the least break position when that is below the limit, at a space or at the limit, and at the last space if one comes late enough. |
| `Cip674.ChunksFit` | src/common/cardano/cip674-metadata.ts:17-32 | Every chunk fits the limit. |
| `Cip674.ChunkCount` | src/common/cardano/cip674-metadata.ts:17-32 | All chunks but the last use up more than the least break position, so (least + 1)(chunks - 1) < length. |
| `Cip674.DefaultChunkCount` | src/common/cardano/cip674-metadata.ts:11-12 | With the defaults, 41 (chunks - 1) < length. |
| `Cip674.CutsAtLastSpace` | src/common/cardano/cip674-metadata.ts:17-32 | A text that is too long is cut at the last space beyond the least break position up to the one right after the limit, or at the limit if there is none. |
| `Cip674.ChunksAreTrimmed` | src/common/cardano/cip674-metadata.ts:30-31 | No chunk but the first starts with whitespace, and none but the last ends with it. |
| `Cip674.ChunksLoseOnlySpace` | src/common/cardano/cip674-metadata.ts:30-31 | The input is exactly the chunks in order, interleaved with whitespace-only gaps. |
| `Cip674.NoWordIsSplit` | src/common/cardano/cip674-metadata.ts:23-31 | If ' ' is the only whitespace and every word is shorter than the limit minus the least break position, the words of the chunks are the words of the input. |
| `Cip674.BoundIsSharp` | src/common/cardano/cip674-metadata.ts:23-31 | A word of exactly that length in the wrong place is split. |
| `Cip674.JoinRestoresInput` | src/common/cardano/cip674-metadata.ts:17-34 | If words are also single-spaced, joining the chunks with ' ' gives back the input. |
| `Uint256Column.StoresExactlyUint256` | src/database/column-bigint-string.transformer.ts:27-63 | If and only if: a value is stored exactly when it stands for an integer in 0 .. 2^256 - 1, as a canonical decimal string of at most 78 digits that parses back to it. |
| `Uint256Column.StoredValuesAreFixed` | src/database/column-bigint-string.transformer.ts:62-67 | Reading back and storing again changes nothing. |
| `Uint256Column.LiteralsAreRead` | src/database/column-bigint-string.transformer.ts:49-62 | A hexadecimal, octal or binary literal of digits is read in its radix. |
| `Uint256Column.PlusIsRead` | src/database/column-bigint-string.transformer.ts:49-62 | A decimal string, with a plus sign or without, is stored as the integer it spells. |
| `Uint256Column.MinusIsRead` | src/database/column-bigint-string.transformer.ts:55-58 | With a minus sign it is refused as negative, unless it is zero. |
| `Uint256Column.BoundIsTwoTo256` | src/database/column-bigint-string.transformer.ts:24 | The bound is 2^256 - 1. |
| `Uint256Column.RefusalsAreExact` | src/database/column-bigint-string.transformer.ts:27-61 | If and only if, for each error: what is refused as not finite, not an integer, unsafe, unreadable, negative or too large. |
| `Uint256Column.StoredEqualIffSameInteger` | src/database/column-bigint-string.transformer.ts:27-63 | If and only if: two stored values have equal columns exactly when they stand for the same integer. |
| `Uint256Column.FixedStringsAreCanonical` | src/database/column-bigint-string.transformer.ts:49-62 | If and only if: the strings stored unchanged are exactly the canonical decimals in range. |
| `Uint256Column.HexLiteralIsAccepted` | src/database/column-bigint-string.transformer.ts:51-52 | "0xff" is stored as "255", against the comment on line 51. |
| `AssetImage.NormalizeIsIdempotent` | src/utils/asset-image-source.util.ts:2-78 | Normalising a result again changes nothing, repeated ipfs/ segments included. |
| `AssetImage.UrlIsNotHex` | src/utils/asset-image-source.util.ts:33-38 | Termination: the URL found in decoded hex never takes the hex branch again. |
| `ImageResults.UrlIsKept` | src/utils/asset-image-source.util.ts:11-27 | A field that starts with http://, https:// or data: is returned trimmed and otherwise as it is. |
| `ImageResults.IpfsIsCollapsed` | src/utils/asset-image-source.util.ts:16-22 | An ipfs URL loses every ipfs/ it starts with. |
| `ImageResults.UrlStartsIff` | src/utils/asset-image-source.util.ts:35 | If and only if: a URL starts where one of the three schemes does, in any case, with something other than whitespace after it. |
| `ImageResults.ClassesSpell` | src/utils/asset-image-source.util.ts:29-46 | The hex digits with their values and the base64 alphabet, in characters. |
| `ImageResults.FindsLeftmost` | src/utils/asset-image-source.util.ts:36-38 | The URL found in decoded metadata is the leftmost: it starts with one of the three schemes in any case, with nothing of the kind before it, and goes up to the next whitespace. |
| `ImageResults.Base64Result` | src/utils/asset-image-source.util.ts:45-78 | A field without a colon that is not an even number of hex digits becomes a data URL with the head of its signature if it is base64 of at least 32 characters, whitespace aside, and nothing otherwise. |
| `ImageResults.OtherTextIsDropped` | src/utils/asset-image-source.util.ts:45-50 | A field with a colon that starts with none of the schemes gives nothing, and neither does a blank one. |
| `AssetImage.HexRoundTrip` | src/utils/asset-image-source.util.ts:34 | Decoding the hex encoding of bytes gives the bytes back. |
| `AssetImage.HexMetadata` | src/utils/asset-image-source.util.ts:29-43 | Hex in either case that spells an ASCII text becomes whatever the text's first URL becomes, and nothing without one or above the size cap. |
| `AssetImage.HexOfPrefixedUrl` | src/utils/asset-image-source.util.ts:25-38 | The hex form of a prefix followed by a URL gives the same result as the URL. |
| `AssetImage.FoundUrlResult` | src/utils/asset-image-source.util.ts:20-38 | If and only if the found URL starts in lower case does it survive; the search ignores case, the test after it does not. |
| `AssetImage.NormalizeFieldIsIdempotent` | src/utils/asset-image-source.util.ts:2-13 | The same for a field in any form, chunks included. |
| `AssetImage.ChunkingMakesNoDifference` | src/utils/asset-image-source.util.ts:5-9 | Where a field is cut into chunks makes no difference, and chunks that are no strings count for nothing. |
| `AssetImage.HexMetadataField` | src/utils/asset-image-source.util.ts:5-43 | Hex metadata in any form of the field is treated alike. |

## Left out

Vault distribution:

- AutomatedDistribution.AutomatedDistributionService.ProcessVaultDistributions: one instance of the service; two instances running the cron at once are not modelled, nor are other services or administrators who rewrite the flags of a vault (an expansion reopening a closed vault, an end to manual mode).
- DistributionSafety.RunMoves: says nothing of the acquirer claims of an acquire-only vault at its pool and its snapshot, because the code does not look at them; AcquireOnlyClosesExactly says what becomes of them.
- VaultSteps.WebhookSets: a vault's list of claims is fixed over a run. Claims are created before a vault is locked and, for expansions, while it is still processed; a claim created for a vault in distribution would not be covered by the payment guard.
- A parameterisation that answers with an empty script hash.
- The other claim transactions the webhook confirms (rewards, cancellations, terminations), which do not touch acquirer, contributor, expansion or LP claims.
- Building, signing and sizing of transactions, and the UTxO retries inside one payment: reduced to whether the transaction goes through, which claims validation takes out and whether the confirmation gets written.
- The vault row disappearing between two queries of one cycle (the "not found" errors): such an error is one of the query failures.
- The VyFi check for an existing pool, ADA withdrawal from the dispatch address and minimum pool size: they are reasons for LP creation to throw.
- Waiting times between calls, alerts and log lines.

Acquire-to-governance transition:

- SimulatedTransition.SimulateTransition: which amounts of an answer with NaN or infinite amounts are affected. The conservation theorems hold for any number of decimals, not just the one calculateOptimalDecimals answers; fdv, vtPrice, the derived per-claim ratios, the LP claim record and the log lines are not modelled.
- Rounding of IEEE doubles and round25, which only removes their noise: all amounts are exact reals. The spread of multipliers that normalisation evens out comes from that noise; NormalizationOnlyTakes therefore holds for arbitrary multipliers.
- Keys such as "constructor" in the plain objects that the source uses as maps.

Prices:

- PriceLookup.DexHunterPricingClient.GetTokenPrices: one clock reading per call (an entry that expires between two reads of one call is not modelled), fetch answers fixed per token during the call, and cache writes done at once where the source does not wait for them.
- PriceLookup.DexHunterPricingClient.GetRedisPrices: errors of single commands in a pipeline and stored strings that are not numbers; number to string and back is exact.
- PriceRefresh.FetchVyFiBulkPrices: starts from the entries of a response that came back as an object; network errors and error statuses are the absent response.
- A price field that is not a number in an answer of the average-price endpoint.
- WeeklyCandles.BuildSeries: the result cache, the HTTP error branches and the check for the main network.
- Liquidity checks, swaps, cache statistics and error-text clean-up, which compute nothing that is relied on here.

Value formats:

- Cip674.ChunkCip674Message: a maximum length of zero or less, for which the source need not end, and a negative least break position. The limit counts UTF-16 code units, as the code does; CIP-20 counts bytes, which is the same on ASCII.
- AssetImage.HexMetadata: decoding of bytes beyond ASCII and the look for "<svg" are parameters of the model.
- JavaScript's minus zero.
