# Verified models of Apollo, blockfrost-go, Dingo and the documentation vendoring scripts

A Dafny 4.11 project. `dafny verify dfyconfig.toml` checks all of it.

**Apollo's transaction builder** is the centre. `Builder.Builder.Complete` runs the whole
build: it reserves collateral, selects coins at a growing fee reserve, settles the fee, and
assembles the transaction. Every transaction it completes balances in lovelace and in every
native asset, pays the requested outputs, pays at least the padded estimate of its own final
shape, spends only UTxOs that were free, and carries collateral sized for its fee. Without scripts and
collateral, and with estimates in range, it completes exactly when inputs are found that balance at
two fees. Under it:

- `Ledger`, `Orders`, `Wrappers`: values, UTxOs, uint64 and int64 bounds, sorting, byte-string orders.
- `MinUtxo`, `Balance`, `Fees`: the size model (an integer takes 1, 2, 3, 5 or 9 bytes, section 3
  of RFC 8949), the min-UTxO rule and its fixed points, the balance equation, fee estimates
  in wrapping int64 arithmetic.
- `MacsSpec`, `MacsProperties`, `MacsSelector`, `MacsSelect`: MACS coin selection. The spec is a
  function of the pool as a *set*; the algorithm with its caches, lazy orders, cursors and running
  sums is proved to return exactly that, and the spec is proved to be a minimal cover plus a
  bounded dust sweep. `MacsDust` says which UTxOs the sweep takes.
- `LargestFirst`: largest-first selection, with the loop that resolves ties in place.
- `Selection`: what the builder makes of any selector's answer, even a misbehaving one's, and how
  failure relates to the fee reserve.
- `Certificates`, `Obligations`, `Collateral`: deposits, refunds, mints, withdrawals, governance,
  the two sides of the balance equation, collateral sizing.
- `Redeemers`: budgets written by (tag, index) and read back by registered name.
- `Reserves`: the fee reserves selection is attempted with, as a function of what each selection costs.
- `BuilderExample`, `PaymentExample`, `ReserveExample`: a chain whose output sizes and prices are of the
  order of mainnet's, a payment on it that completes, and one that is rejected for a short fee reserve.
- `BodyIntegrity`: the structural comparison of decoded bodies, greedy matching included.

Three smaller cores stand alone: `PagePool` (the draining pagination pool of blockfrost-go, as a
transition system over every interleaving), `SelectedNoneWorker` (Dingo's coalescing retry worker,
likewise) and `PortablePaths` (the allocator of Windows-safe names and the validation its names must pass).

Classes with mutable fields (`Payment`, `ClassView`, `RedeemerBook`, `Builder`, `Allocator`) follow
source objects that methods update in place; concurrent code is a state machine over its steps.

## Findings

- The comment at docs/sources/apollo/apollo.go:2105-2107 says a selection that fails at the estimated reserve
  would also fail at the ceiling. With an exact selector (both built-in ones are) on a pool whose lovelace
  fits uint64 that holds except when the top-up guard itself fails: the change minimum cannot be computed,
  or adding it leaves uint64. `Selection.GuardFailureIsNotMonotone` is such a case whenever the minimum is
  computable and above the dust, `Selection.FailureIsMonotone` shows that under those hypotheses there is no other, and
  `Selection.FailsAtEveryLargerReserve` gives the exact condition for failing at every larger reserve.
  `Builder.Builder.OverlapFailureIsMonotone` and `FailsAtCeiling` carry it over to the reserve loop. A
  caller-supplied selector can fail at one reserve and succeed at a larger one.
- The comment at docs/sources/apollo/apollo.go:2100-2112 says the last attempt is always made at the ceiling and
  the loop never selects less conservatively than the ceiling did. The third attempt is the last whatever its
  reserve. The loop keeps a selection that costs more than its reserve exactly when selection succeeds with
  such at three reserves in a row, each the cost of what the one before selects, the third below the ceiling
  (`Builder.Builder.StopsShortIff`). `ReserveExample.LastAttemptFallsShort` is such a build, with a selector
  that takes the first UTxO large enough. It is rejected (`ReserveExample.ExampleIsRejected`), though at the
  ceiling selection finds a UTxO that pays for everything (`ReserveExample.FourthPays`).
- `unemittableChangeMinimum` (docs/sources/apollo/apollo.go:2737-2777) is to find out whether the leftover can be
  emitted, but it keeps the zero quantities of assets that are exactly used up, and balancing drops them. The
  two disagree exactly when one of the two minima, with the zero entries and without, is covered by the
  leftover and the other is not (`Selection.GuardAgreesIff`); they agree where no asset is exactly used up.
  `Selection.GuardOverlooksChange`: 3,300,000 lovelace with five of one asset and three of another, less
  2,000,000 and the five, is called 122,300 short of its minimum, and balancing emits it. The builder then
  tries to select another input that it does not need.
- The branch of `buildBalancedOutputs` that raises asset-bearing change to its minimum never
  succeeds (`Balance.RaisingNeverSucceeds`): such change is always an error.
- `totalWithdrawalValue` saturates instead of failing, and no transaction ever shows it
  (`Obligations.ImplicitExact`): with any lovelace among the inputs the addition overflows first.
- `Complete` balances over its *list* of inputs. The ledger spends their set, so an input pinned twice is
  counted twice. `Obligations.RepeatedPinBalances` is such a build: it balances, and the ledger finds the
  UTxO's lovelace missing. A completed transaction balances for the ledger exactly when no UTxO was pinned
  twice (`Builder.Builder.CompletedBalancesOnceIff`).
- The comment at docs/sources/apollo/apollo.go:2595-2598 calls the single input's choice deterministic. `SortUtxos`
  compares nothing but whether there are assets and the amount, and is stable, so candidates equal in both
  keep the order of the pool. The choice is the same for
  every listing of a pool exactly when one candidate comes before all others
  (`Selection.PickIsDeterminedIff`); of two equal ADA-only UTxOs the first listed is picked
  (`Selection.EqualsFollowListing`).
- The comments at docs/sources/dingo/node_chainsync_recycler.go:350-351 rely on the recheck to protect newer
  selections. The selector is not under the lifecycle lock, so a peer that is lost and selected
  again between a handler's recheck and its clearing loses its connection until the next switch
  event (`SelectedNoneWorker.RecheckCanBeOutrun`); among events, switches and the worker nothing else takes
  a wanted connection away (`SelectedNoneWorker.WantedStaysActive`). Restore and truncate, which reset the
  chainsync state, are not in the model.
- The dust sweep looks at everything not kept, so a pick that pruning dropped can come back as dust. It does so
  exactly when it is ADA-only, below the threshold, and fewer than `MaxDustInputs` pieces of dust come before
  it (`MacsDust.PrunedPickReturnsIff`); `MacsDust.PrunedPickReturns` is a pool of 10, 11 and 11 lovelace
  where a target of 22 brings the 10 back.

## Model

| member | source | states |
|---|---|---|
| Builder.Builder.Complete | docs/sources/apollo/apollo.go:1908-2375 | A completed transaction conserves lovelace and every asset over inputs, mint, withdrawals, refunds, outputs, fee, deposits, proposals, donation and direct deposits; starts with the requested outputs and adds at most one change output that meets its minimum; pays at least the padded estimate of its own inputs, outputs, collateral and budgets, the budgets being those evaluated for that very shape; has inputs, each pinned or free before; and keeps collateral sized and apart. A build without scripts and collateral, while the first shape balanced from its inputs is priced within int64, never reports non-convergence and completes exactly when the request has its needs, the reserve loop finds inputs for them, and these balance at their starting fee and at the fee asked for next. |
| Builder.Builder.Assemble | docs/sources/apollo/apollo.go:2046-2375 | The same for the part of the build after collateral is reserved. |
| Builder.Builder.SettleFee | docs/sources/apollo/apollo.go:2235-2317 | The loop converges only on a shape whose own padded estimate it charges, in at most five rounds; without scripts and collateral, from a priced start, it converges within three exactly when balancing succeeds at the starting fee and at the next, fails otherwise, and neither non-convergence error is reachable. |
| Builder.Builder.SecondFeeExists | docs/sources/apollo/apollo.go:2277-2303 | Once a plain build's starting fee is balanced, the next fee exists and is the one the loop asks for. |
| Builder.Builder.SecondFeeIsFinal | docs/sources/apollo/apollo.go:2290-2303 | After one upward clamp the next shape asks for no more than the present fee. |
| Builder.Builder.Round | docs/sources/apollo/apollo.go:2246-2262 | One iteration balances at the requested fee, sizes collateral for the fee charged and refreshes budgets with those evaluated for its own inputs, outputs and fee; in a plain build it changes no field. |
| Builder.Builder.Iterate | docs/sources/apollo/apollo.go:2235-2303 | One iteration and the fee it asks for next, all of one shape. |
| Builder.Builder.PlainIteration | docs/sources/apollo/apollo.go:2264-2303 | In a plain build an iteration either settles or moves on to a new shape, and none after the third is made. |
| Builder.Builder.PlainFailure | docs/sources/apollo/apollo.go:2246-2303 | An iteration of a plain build fails only where balancing fails at one of the two fees. |
| Builder.Builder.NextFee | docs/sources/apollo/apollo.go:2277-2303 | The next fee is the padded estimate of the present shape, never below the present fee. |
| Builder.Builder.CompletedPaysItsSize | docs/sources/apollo/apollo.go:2874-2969 | A completed, estimated fee pays the linear fee of the transaction as encoded with that very fee, provided it encodes no wider than the placeholder and estimates stay in int64. |
| Builder.Builder.CompletedBudgetsAreEvaluated | docs/sources/apollo/apollo.go:2246-2262 | With every round run by `EvaluationRound`, the budgets of a completed transaction have exactly the keys and buffered budgets of a response to its own inputs, outputs and fee, one for each registered redeemer. |
| Builder.Builder.CompletedBalancesOnceIff | docs/sources/apollo/apollo.go:294-301 | A completed transaction balances over the set of its inputs exactly when no UTxO was pinned twice. |
| Builder.Builder.SettledConserves | docs/sources/apollo/apollo.go:2198-2233 | Balancing the prepared context at the settled fee conserves every asset class of the whole transaction. |
| Builder.Builder.SettledPaysOut | docs/sources/apollo/evaluation_balance.go:52-104 | Settled outputs are the requested ones, then at most one change output to the change address that meets its minimum. |
| Builder.Builder.StartIsPriced | docs/sources/apollo/apollo.go:2181-2196 | In a plain build whose first shape is priced within int64 the starting fee is the padded price of the base outputs. |
| Builder.Builder.BoundedChangeFits | docs/sources/apollo/apollo.go:2224-2233 | It is enough that every output change could be, with quantities bounded by inputs and mint, is priced within int64. |
| Builder.Builder.FirstChange | docs/sources/apollo/evaluation_balance.go:52-104 | Balancing adds no output, or one to the change address with no datum and of each asset no more than inputs and mint supply. |
| BuilderExample.ExampleChainFits | docs/sources/apollo/apollo.go:2937-2968 | On a chain whose output sizes grow with assets and attached bytes, whatever reference scripts cost within reason, every build whose pool, padding and outputs are in proportion has its first shape priced within int64. |
| PaymentExample.SettleableIff | docs/sources/apollo/apollo.go:2181-2317 | A payment from one ADA-only UTxO settles exactly when that holds the payment and the price of spending it. |
| PaymentExample.FirstPays | docs/sources/apollo/apollo.go:2113-2165 | With a first listed UTxO that holds the payment and the fee ceiling the build can be completed, whatever else is in the pool. |
| PaymentExample.ExampleCompletes | docs/sources/apollo/apollo.go:1908-2375 | There is such a build, and it completes with that input. |
| Builder.Builder.ChooseInputs | docs/sources/apollo/apollo.go:2113-2165 | What is returned is what selection finds at the last reserve of the loop, errors included, with the reservations rolled back on failure. A success covers the target of that reserve with free, distinct pool entries, and the reserve pays for them unless it is the ceiling or three attempts were made. |
| Builder.Builder.TryReserves | docs/sources/apollo/apollo.go:2124-2165 | The loop starts at the price of the pins, makes at most three attempts from the same reservations, and ends at the reserve that following the costs of what is selected leads to. |
| Builder.Builder.Attempt | docs/sources/apollo/apollo.go:2124-2165 | An attempt selects what selection finds at its reserve, and asks for another, at the cost of what it selected and with the reservations rolled back, exactly when that cost is more, the reserve is below the ceiling and an attempt is left. |
| Builder.Builder.StopsShortIff | docs/sources/apollo/apollo.go:2108-2165 | The loop ends with a selection that costs more than its reserve exactly when three reserves in a row, each the cost of what the one before selects, are too small; the last is then the third, below the ceiling. |
| Reserves.ShortIff | docs/sources/apollo/apollo.go:2108-2165 | The same over the costs alone. |
| Reserves.LastWithinCeiling | docs/sources/apollo/apollo.go:2108-2113 | Reserves never fall and never pass the ceiling. |
| Builder.Builder.FailsAtCeiling | docs/sources/apollo/apollo.go:2103-2107 | With a selector exact on the free UTxOs, whose lovelace fits uint64, selection that fails at a reserve fails at the ceiling too, unless the top-up guard is what failed. |
| Builder.Builder.ReserveFundsFee | docs/sources/apollo/apollo.go:2067-2165 | A selection that covers the target of a reserve pays for every fee up to it, burned tokens included; balancing at that fee then fails exactly when something is left that has no computable minimum, or that is below its minimum and carries assets or is too much for the fee to absorb. |
| Builder.Builder.GuardSeesPins | docs/sources/apollo/apollo.go:2615-2642 | When the pins cover the target alone, the top-up guard looks at exactly what balancing them at the reserve leaves. |
| ReserveExample.LastAttemptFallsShort | docs/sources/apollo/apollo.go:2100-2165 | A build whose reserve loop ends at its third reserve, below the ceiling, with a selection that costs more. |
| ReserveExample.ExampleFallsShort | docs/sources/apollo/apollo.go:2113-2165 | Run on the needs gathered from that request, the loop returns that selection. |
| ReserveExample.ThirdIsShort | docs/sources/apollo/apollo.go:2224-2233 | That build cannot be completed. |
| ReserveExample.FourthPays | docs/sources/apollo/apollo.go:2100-2107 | At the ceiling selection finds another UTxO, on which the build would settle. |
| ReserveExample.ExampleIsRejected | docs/sources/apollo/apollo.go:1908-2375 | There is such a build, and it is rejected. |
| Builder.Builder.Gather | docs/sources/apollo/apollo.go:1944-2065 | What the build is balanced against is the outputs, deposits, governance and mint of the request; selection is asked for that and the tokens to be burned, starts from the pins, the mint with its burns set aside and the implicit inputs, and reserves at most the maximal fee plus the pins' reference scripts. It fails only where no such needs exist. |
| Builder.Builder.NeedsUnique | docs/sources/apollo/apollo.go:1944-2065 | A request has at most one set of needs. |
| Builder.Builder.Prepare | docs/sources/apollo/apollo.go:2167-2233 | The sorted inputs repeat only if a pin does, keep clear of collateral not flagged for overlap, and the balance context is their exact total with the implicit inputs; it fails exactly on invalid collateral, an inputs total or context out of range, or inputs without a price. |
| Builder.Builder.SettleableIff | docs/sources/apollo/apollo.go:2167-2233 | In a plain build inputs settle exactly when they can be prepared and balance at both fees. |
| Builder.Builder.Fund | docs/sources/apollo/apollo.go:1944-2233 | Gathering, selecting and preparing give inputs a plain build settles on exactly when it can be completed. |
| Builder.Builder.Finish | docs/sources/apollo/apollo.go:2224-2342 | From prepared inputs to a sound transaction over exactly those inputs; in a plain build whose first shape is priced within int64 it completes exactly when these balance at both fees, and never ends in non-convergence. |
| Builder.Builder.InputsSorted | docs/sources/apollo/apollo.go:2167-2171 | Sorting pins and picks together neither loses nor invents an input, and pins and picks never repeat one another. |
| Builder.Builder.SelectCoins | docs/sources/apollo/apollo.go:2615-2732 | For any selector the result is the specified one over the unused pool, and the reservations grow by exactly the selected references on success and not at all on failure. |
| Builder.Builder.MarkAllUsed | docs/sources/apollo/apollo.go:3875-3880 | Reservations grow by exactly the given references. |
| Builder.Builder.OverlapFailureIsMonotone | docs/sources/apollo/apollo.go:2103-2107 | With a selector exact on the pools tried, whose lovelace fits uint64, selection with the collateral retry that fails at one reserve, not by the top-up guard, fails at every larger one. |
| Builder.Builder.SelectAllowingOverlap | docs/sources/apollo/apollo.go:4098-4114 | The result is that of the first selection, or of the retry over the pool with the collateral released. A failed selection, retry included, leaves used references and overlap flag as they were; a successful one covers the target with distinct UTxOs that were free, or the released collateral only on the retry. |
| Builder.Builder.ReleaseCollateralForOverlap | docs/sources/apollo/apollo.go:4047-4055 | Releases the reservation exactly when there is one auto-selected UTxO not yet flagged. |
| Builder.Builder.RestoreCollateralReservation | docs/sources/apollo/apollo.go:4062-4068 | Puts the flagged reference back into the reservations and clears the flag. |
| Builder.Builder.Restore | docs/sources/apollo/apollo.go:4078-4088 | Restoring a snapshot restores used references and overlap flag. |
| Builder.Builder.SetCollateral | docs/sources/apollo/apollo.go:3932-4037 | Reserves the first free eligible UTxO in pool order, ADA-only if any is; the total is the preliminary minimum, total and return split its lovelace exactly and the return holds its assets; it fails only when nothing free is eligible, and changes nothing then. |
| Builder.Builder.FirstEligible | docs/sources/apollo/apollo.go:3932-4037 | The first free eligible candidate in order, or proof that there is none. |
| Builder.Builder.FinalizeCollateral | docs/sources/apollo/apollo.go:4142-4295 | The method writes exactly what the sizing function decides and nothing on an error. |
| Builder.Builder.SizedByFinalize | docs/sources/apollo/apollo.go:4142-4295 | After sizing, the two body fields split the collateral and cover the required share of this fee. |
| Builder.Canonicalise | docs/sources/apollo/apollo.go:2698-2718 | Resolving picks through a map of the pool and a set of seen references gives the pool's own UTxOs, or the specified error. |
| Builder.DistinctFits | docs/sources/apollo/apollo.go:2698-2718 | A selection of distinct pool entries is never larger than the pool. |
| Selection.SelectIsSound | docs/sources/apollo/apollo.go:2615-2732 | For an arbitrary selector, a success returns distinct available UTxOs that with the current input cover every required class, and preselected plus selected inputs are never empty. |
| Selection.AcceptCovers | docs/sources/apollo/apollo.go:2719-2725 | Checking the saturated remainder is enough to cover the requirement itself. |
| Selection.Canonical | docs/sources/apollo/apollo.go:2698-2718 | An accepted answer keeps the selector's references, in order, without repeats, each replaced by the pool's own entry. |
| Selection.PickSingle | docs/sources/apollo/apollo.go:2599-2613 | Fails exactly on an empty pool and otherwise returns a pool entry. |
| Selection.PickIsFirstPreferred | docs/sources/apollo/apollo.go:2599-2613 | The pick is the first listed of the entries no other comes before: no bundle, then an empty one, then assets, and within each the larger amount. |
| Selection.PickIsDeterminedIff | docs/sources/apollo/apollo.go:2594-2613 | Every listing of a pool gives the same pick exactly when one entry comes before all others. |
| Selection.EqualsFollowListing | docs/sources/apollo/apollo.go:2594-2613 | Of two ADA-only UTxOs of one amount, the first listed is picked. |
| Selection.UnemittableDecides | docs/sources/apollo/apollo.go:2737-2777 | The answer is 0 exactly when nothing is left or the leftover covers the minimum of an output with its zero quantities, and otherwise a minimum that prices its own encoding. |
| Selection.GuardAgreesIff | docs/sources/apollo/apollo.go:2737-2777 | The guard and balancing disagree exactly when one of the minima with and without zero quantities is covered and the other is not; only balancing can be the one that emits where dropping entries enlarges no output, and they agree where no asset is exactly used up. |
| Selection.GuardOverlooksChange | docs/sources/apollo/apollo.go:2737-2777 | A leftover of 1,300,000 lovelace and one asset beside a used-up one is called unemittable and balancing emits it. |
| Selection.EmitsIff | docs/sources/apollo/evaluation_balance.go:52-104 | Balancing emits a leftover exactly when it covers the minimum of its own output. |
| Selection.LeftoverDropsZeros | docs/sources/apollo/helpers.go:205-233 | Of equal quantities, balancing keeps the same lovelace and only the positive entries. |
| Selection.FailureIsMonotone | docs/sources/apollo/apollo.go:2103-2107 | With an exact selector on a pool whose lovelace fits uint64, a failure that is not the guard's own recurs at every larger reserve. |
| Selection.FailsAtEveryLargerReserve | docs/sources/apollo/apollo.go:2103-2107 | A failure recurs at every larger reserve exactly when it is not the guard's, or the guard fails at every reserve up to what is covered and nothing can be added beyond. |
| Selection.GuardFailureIsNotMonotone | docs/sources/apollo/apollo.go:2615-2642 | Under any codec and price, for dust below a computable minimum: pinned inputs at the uint64 limit fail at the reserve that leaves the dust, and succeed at the larger one that leaves nothing. |
| Selection.CoveredFailsByGuard | docs/sources/apollo/apollo.go:2615-2642 | With pinned inputs that cover the requirement, selection fails exactly when the guard does. |
| Selection.OneMoreLovelace | docs/sources/apollo/apollo.go:2678-2697 | One lovelace beyond what is covered can be selected unless the pool has none or uint64 has no room. |
| Selection.MacsIsExact | docs/sources/apollo/macs.go:267-378 | On an ordinary pool MACS fails exactly when some class of the pool is short, and the builder accepts what it returns. |
| Selection.LargestFirstIsExact | docs/sources/apollo/coinselection.go:67-143 | The same for largest-first. |
| Selection.PoolOrderIsIrrelevant | docs/sources/apollo/macs.go:546-561 | Both selectors return the same sequence or the same error for any two listings of one pool. |
| Selection.CoverAccepted | docs/sources/apollo/apollo.go:2698-2731 | Distinct pool entries that cover every class of the target pass the builder's checks. |
| MacsSelector.ClassView.Next | docs/sources/apollo/macs.go:177-253 | With lazy orders, a possibly stale bound and forward-only cursors, the index returned is the one a stateless scan makes: best-priority closer that strands no change, else largest closer, else best-priority holder. |
| MacsSelector.ClassView.AvailableMax | docs/sources/apollo/macs.go:157-168 | An upper bound on every unselected quantity, attained once the class is ordered by quantity. |
| MacsSelector.ClassView.Scan | docs/sources/apollo/macs.go:188-217 | One pass over the holders finds the best clean closer and the largest closer among the unselected. |
| MacsSelector.ClassView.Consider | docs/sources/apollo/macs.go:190-217 | One candidate updates both answers as the set of seen candidates grows by it. |
| MacsSelector.ClassView.Advance | docs/sources/apollo/macs.go:161-167 | A cursor passes selected candidates only and stops at the first unselected one of its order. |
| MacsSelector.ClassView.OrderHeld | docs/sources/apollo/macs.go:257-264 | A lazily built order lists every holder in strict order. |
| MacsSelector.ClassView.HolderPosition | docs/sources/apollo/macs.go:238-252 | The entry at the cursor is the top of all unselected holders; past the end there are none. |
| MacsSelector.ClassView.ValidAfterSelecting | docs/sources/apollo/macs.go:134-152 | Selecting more candidates never invalidates a cursor. |
| MacsSelector.ClassView.constructor | docs/sources/apollo/macs.go:444-494 | The cached terms of a view are the quantities, deviations and average of its pool. |
| MacsSelector.ScanStep | docs/sources/apollo/macs.go:190-217 | Extending a scan by one candidate keeps its answers the best of what was seen. |
| MacsSelect.Select | docs/sources/apollo/macs.go:267-378 | The whole algorithm returns the set-level selection, so pool order cannot show. |
| MacsSelect.PickAll | docs/sources/apollo/macs.go:321-364 | The picking loop makes the picks of the set-level recursion, round for round. |
| MacsSelect.Round | docs/sources/apollo/macs.go:329-343 | One round decides what the specification decides for the present selection. |
| MacsSelect.Choose | docs/sources/apollo/macs.go:333-351 | The view's pick, recorded under its priority terms, is the specified one. |
| MacsSelect.FirstDeficitOf | docs/sources/apollo/macs.go:498-518 | The first class with something remaining is the first the selection leaves short. |
| MacsSelect.Deduct | docs/sources/apollo/macs.go:353-363 | Saturating deductions keep the remainder equal to target less selected, class by class. |
| MacsSelect.ClassesOf | docs/sources/apollo/macs.go:417-439 | Classes come out as native assets in order, lovelace last, whatever order the keys came in. |
| MacsSelect.PruneRedundant | docs/sources/apollo/macs.go:567-619 | Pruning over running sums keeps exactly what the fold over recomputed totals keeps. |
| MacsSelect.TakeFromSums | docs/sources/apollo/macs.go:567-619 | Dropping a pick from the running sums leaves the totals of what is kept. |
| MacsSelect.SweepDust | docs/sources/apollo/macs.go:384-412 | The swept suffix is the bounded, smallest-first list of ADA-only dust not kept. |
| MacsDust.SweptIff | docs/sources/apollo/macs.go:384-412 | An unkept UTxO is swept exactly when it is ADA-only, below the threshold, and fewer than `MaxDustInputs` pieces of dust come before it. |
| MacsDust.PrunedPickReturnsIff | docs/sources/apollo/macs.go:384-412 | Exactly then a pick that pruning dropped comes back. |
| MacsDust.PrunedPickReturns | docs/sources/apollo/macs.go:267-412 | With 10, 11 and 11 lovelace and a target of 22, the 10 is picked first, pruned, and swept back into the selection. |
| MacsDust.AscendingRank | docs/sources/apollo/macs.go:400-411 | The position of a piece of dust in the sorted list is the number of pieces before it. |
| MacsSpec.BetterIsTotalOrder | docs/sources/apollo/macs.go:546-561 | Cross-multiplied ratio, then value, then reference is a strict total order. |
| MacsSpec.CommonDenominator | docs/sources/apollo/macs.go:546-561 | Cross-multiplied comparison of ratios is transitive, ties included. |
| MacsSpec.PickUnique | docs/sources/apollo/macs.go:177-253 | The stateless scan has one answer. |
| MacsProperties.SelectionIsSound | docs/sources/apollo/macs.go:267-412 | Every success is an inclusion-minimal cover of all classes followed by at most `MaxDustInputs` distinct, unkept, ADA-only UTxOs below the threshold, smallest first. |
| MacsProperties.InsufficientIffShort | docs/sources/apollo/macs.go:323-364 | MACS reports insufficiency exactly when the pool's total in some target class is below the target. |
| MacsProperties.SelectFromOutcome | docs/sources/apollo/macs.go:321-364 | Picking gives up only when the pool is short and otherwise stops with distinct picks that cover. |
| MacsProperties.PruneSound | docs/sources/apollo/macs.go:567-619 | The pruned picks still cover every class and dropping any one breaks coverage. |
| MacsProperties.PruneFoldSound | docs/sources/apollo/macs.go:567-619 | A single worst-first pass suffices for minimality. |
| MacsProperties.SweptSound | docs/sources/apollo/macs.go:384-412 | Swept UTxOs are distinct dust, within the limit, none larger than dust left behind. |
| MacsProperties.RetainKeeps | docs/sources/apollo/macs.go:368-377 | The result lists exactly the kept picks, without repeats. |
| LargestFirst.Select | docs/sources/apollo/coinselection.go:67-143 | The selector returns a function of the pool as a set. |
| LargestFirst.CanonicalSort | docs/sources/apollo/coinselection.go:82-109 | Sorting by amount and then rewriting every run of ties gives the one ascending listing of the canonical order. |
| LargestFirst.StabiliseRun | docs/sources/apollo/coinselection.go:86-109 | Rewriting one maximal run extends the settled prefix and stays a permutation of the pool. |
| LargestFirst.CanonicalTotal | docs/sources/apollo/utils.go:54-117 | With distinct references, amount order with ties by input order is strict and total. |
| LargestFirst.TakePrefix | docs/sources/apollo/coinselection.go:110-142 | The loop over a shrinking remainder stops at the first covering prefix or the first invalid amount. |
| LargestFirst.PrefixOutcome | docs/sources/apollo/coinselection.go:110-142 | A success is the shortest covering prefix; an insufficiency means even the whole pool does not cover. |
| LargestFirst.InsufficientIffShort | docs/sources/apollo/coinselection.go:110-142 | Insufficiency is reported exactly when some class is short; otherwise distinct pool entries cover the target. |
| LargestFirst.EnoughByClass | docs/sources/apollo/coinselection.go:129-140 | A remainder of nothing means every class of the target is covered. |
| Orders.SortedIsAscending | docs/sources/apollo/utils.go:44-117 | A strict total order leaves a sort no freedom: any sorted listing is the ascending one. |
| Orders.SortBySorts | docs/sources/apollo/utils.go:54-84 | Sorting by a weak order leaves no later element before an earlier one. |
| Orders.SortBy | docs/sources/apollo/utils.go:44-50 | Sorting permutes. |
| Ledger.RefInjective | docs/sources/apollo/apollo.go:3882-3884 | Different inputs have different reference strings. |
| Ledger.RefLessTotal | docs/sources/apollo/macs.go:523-528 | String order of references is strict and total on inputs. |
| Ledger.InputLessTotal | docs/sources/apollo/utils.go:87-117 | Id bytes then numeric index is a strict total order. |
| Ledger.Value.Add | docs/sources/apollo/helpers.go:37-53 | Fails exactly on uint64 overflow of the coin and is otherwise exact in every class. |
| Ledger.Value.Sub | docs/sources/apollo/helpers.go:57-73 | Fails when some positive amount exceeds what is there, only when some amount does, and is exact when nothing subtracted is negative. |
| Ledger.SubtractSaturating | docs/sources/apollo/helpers.go:237-264 | The loop over held assets clamps each required quantity at zero, whatever order it visits them in. |
| Ledger.SumUtxoValues | docs/sources/apollo/apollo.go:2566-2592 | The loop returns the total or its first error. |
| Ledger.TotalValueExact | docs/sources/apollo/apollo.go:2566-2592 | A total is exact in every class, and exists exactly when all amounts are uint64 and so is their sum. |
| Ledger.SumPermutation | docs/sources/apollo/apollo.go:2167-2171 | Sorting inputs changes no total. |
| MinUtxo.Payment.EnsureMinUtxo | docs/sources/apollo/models.go:241-276 | Lovelace never decreases; on success it is the least admissible one, or unchanged by the early exit; the non-convergence error is never returned. |
| MinUtxo.RaiseChainSettles | docs/sources/apollo/models.go:249-275 | After three raises the minimum has stopped moving, for every price and shape. |
| MinUtxo.AtMostOneWidthStep | docs/sources/apollo/helpers.go:674-687 | Within nine bytes of price of each other, coins at or above the base price straddle at most one change of integer width. |
| MinUtxo.UnitsValueShift | docs/sources/apollo/models.go:216-236 | Raising the lovelace moves a payment's coin by as much, leaves its assets alone, and fails exactly on overflow. |
| MinUtxo.MinLovelace | docs/sources/apollo/helpers.go:674-687 | Success means a positive price and price times size within int64; the errors are the two the code has. |
| MinUtxo.MinLovelaceMonotone | docs/sources/apollo/helpers.go:674-687 | More coin never lowers the minimum nor turns a failure into success. |
| MinUtxo.IteratedMinimumDecides | docs/sources/apollo/apollo.go:2758-2776 | Three iterations reach a self-pricing minimum, and comparing with it decides whether the coin of that output covers its own minimum. |
| MinUtxo.ThreeRounds | docs/sources/apollo/apollo.go:2758-2776 | The size recurrence is stationary after three rounds from either side. |
| Balance.NormalizeChange | docs/sources/apollo/helpers.go:205-233 | Fails exactly on a negative quantity; otherwise keeps every quantity and only positive entries. |
| Balance.BalanceConserves | docs/sources/apollo/evaluation_balance.go:33-104 | Input equals requirements, fee and outputs beyond the base ones, in coin and in every asset. |
| Balance.BalanceEnding | docs/sources/apollo/evaluation_balance.go:52-104 | A success ends in one of three ways: nothing left, sub-minimum ADA absorbed by the fee, or the exact leftover in a change output meeting its minimum. |
| Balance.AssetsReachChange | docs/sources/apollo/evaluation_balance.go:52-104 | Leftover assets always reach a change output of exactly their quantities, and a raised fee means no change output. |
| Balance.RaisingNeverSucceeds | docs/sources/apollo/evaluation_balance.go:78-103 | The asset-raising branch cannot return success. |
| Balance.AssetChangeBelowMinimumFails | docs/sources/apollo/evaluation_balance.go:78-103 | Asset-bearing change below its minimum is an error, never a dropped asset. |
| Balance.BalancingFailsIff | docs/sources/apollo/evaluation_balance.go:52-104 | With enough inputs, balancing fails exactly when something is left that has no computable minimum, or is below its minimum and carries assets or would take the fee past int64; lovelace spent exactly beside a foreign token therefore fails. |
| Balance.LeftoverExact | docs/sources/apollo/evaluation_balance.go:38-57 | The leftover is input less requirements and fee in every class. |
| Fees.OneRaiseSettles | docs/sources/apollo/apollo.go:2235-2317 | From the price of the base outputs, the fee that pays for the first balanced shape also pays for the shape it balances to. |
| Fees.SmallerShapeCheaper | docs/sources/apollo/apollo.go:2874-2969 | A shape that is no larger is priced no higher, int64 wrap-around included. |
| Fees.SmallerChangeSmaller | docs/sources/apollo/apollo.go:2874-2969 | Dropping the change output or lowering its coin never enlarges the transaction. |
| Fees.LeftoverShift | docs/sources/apollo/evaluation_balance.go:38-57 | A higher fee lowers the leftover's coin by the difference and leaves its assets alone. |
| Fees.PriceExact | docs/sources/apollo/apollo.go:2937-2968 | While the exact price fits int64, the wrapped arithmetic computes it without an overflow error. |
| Fees.FeeCoversEncodedSize | docs/sources/apollo/apollo.go:2874-2969 | A fee of at least the estimate pays for the body as encoded with it when it is no wider than the placeholder. |
| Collateral.FinalizeIsSound | docs/sources/apollo/apollo.go:4142-4295 | Total collateral and return split the collateral's lovelace; the total covers the percentage of the fee; an explicit amount is honoured exactly; all assets are returned in an output meeting its minimum. |
| Collateral.FinalizeIsFrugal | docs/sources/apollo/apollo.go:4257-4294 | In automatic mode no more than the minimum is at stake unless the rest could not have been returned. |
| Collateral.FinalizeFailsIff | docs/sources/apollo/apollo.go:4142-4295 | Sizing fails, for every input, exactly on arithmetic or collateral out of range, too little collateral, stranded assets, or an amount that is too low or leaves a rest that cannot be returned. |
| Collateral.SizingFitsInt64 | docs/sources/apollo/apollo.go:4153-4157 | The fee guard keeps the product and its rounding inside int64. |
| Collateral.RequiredCollateral | docs/sources/apollo/apollo.go:4156-4157 | The requirement is the fee's percentage rounded up. |
| Collateral.Lovelace | docs/sources/apollo/apollo.go:4164-4176 | A wrapped running sum with its overflow test succeeds exactly while no amount is negative and the sum fits int64, and is then exact. |
| Collateral.Assets | docs/sources/apollo/apollo.go:4165-4185 | Collateral assets add up per asset, and exist exactly when some input carries a bundle. |
| Certificates.Adjustment | docs/sources/apollo/apollo.go:4368-4448 | The loop nets per-certificate deposits and refunds and fails exactly when a total leaves uint64 or the net leaves int64. |
| Certificates.PoolChargedOnFirstRegistration | docs/sources/apollo/apollo.go:4377-4400 | However often a pool is registered, it is charged through its first registration or not at all. |
| Obligations.Conservation | docs/sources/apollo/apollo.go:1953-2044 | Balancing the context of a build conserves the whole transaction in each class. |
| Obligations.ContextExact | docs/sources/apollo/apollo.go:1953-2044 | The three values balanced are exactly what the request puts in and takes out. |
| Obligations.BalancesOnceIffDistinct | docs/sources/apollo/apollo.go:2562-2592 | Balance over the listed inputs is balance over their set exactly when none is listed twice. |
| Obligations.RepeatedPinBalances | docs/sources/apollo/apollo.go:294-301 | Whatever the codec and the price, a request with one UTxO pinned twice balances over the listed pins, and over their set is short by that UTxO. |
| Obligations.RequiredExact | docs/sources/apollo/apollo.go:1953-1999 | The requirement is outputs, direct deposits and the positive net deposit. |
| Obligations.ImplicitExact | docs/sources/apollo/apollo.go:3699-3711 | Implicit inputs are exact in every class: with lovelace among the inputs the saturated withdrawal total never survives. |
| Obligations.WithdrawalTotal | docs/sources/apollo/apollo.go:3699-3711 | The withdrawal total saturates at the largest uint64. |
| Obligations.MintValue | docs/sources/apollo/apollo.go:3766-3780 | The mint value nets every minted and burned class; it fails exactly on burned lovelace or on lovelace beyond uint64. |
| Obligations.BurnRequirement | docs/sources/apollo/apollo.go:3789-3815 | Exactly the net burned quantities must be present in the inputs. |
| Obligations.GovernanceRequired | docs/sources/apollo/apollo.go:3740-3760 | Donation plus proposal deposits, failing exactly when the sum leaves uint64. |
| Obligations.DirectDepositTotal | docs/sources/apollo/dijkstra_tx.go:120-132 | The sum of direct deposits, failing exactly on a zero deposit or a sum beyond uint64. |
| Obligations.TotalOutputValue | docs/sources/apollo/apollo.go:2550-2560 | The total of the outputs, exact in every class, failing exactly when the lovelace leaves uint64. |
| Redeemers.RedeemerBook.EvaluationRound | docs/sources/apollo/apollo.go:3209-3352 | When evaluation succeeds, the rebuilt redeemer map carries exactly the buffered budgets at exactly the evaluated keys, one entry per registered redeemer; when it fails nothing changes. |
| Redeemers.RoundTrip | docs/sources/apollo/apollo.go:3545-3621 | Budgets written into the tables and read back through the indexes are the same map, for distinct positions. |
| Redeemers.RedeemerBook.Validate | docs/sources/apollo/apollo.go:3209-3319 | The loop with its four sets of seen names succeeds exactly on a non-empty response whose every key names a registered redeemer with a usable budget and which leaves no redeemer out. |
| Redeemers.RedeemerBook.ValidateResults | docs/sources/apollo/apollo.go:3215-3295 | The first loop accepts exactly the responses that name registered redeemers with usable budgets, and has then seen the names they stand for. |
| Redeemers.RedeemerBook.Apply | docs/sources/apollo/apollo.go:3323-3352 | Writing budgets one key at a time, in any order, gives the tables with each budget at its key. |
| Redeemers.RedeemerBook.ApplyOne | docs/sources/apollo/apollo.go:3323-3352 | One write changes one entry of one table. |
| Redeemers.RebuiltTable | docs/sources/apollo/apollo.go:3545-3621 | One tag's part of the rebuilt map has that tag's keys, budgets and count. |
| Redeemers.GuardLookupsInverse | docs/sources/apollo/dijkstra_guards.go:207-223 | A key's index and an index's key are inverse lookups, both ways. |
| Redeemers.Deduplicate | docs/sources/apollo/dijkstra_guards.go:135-156 | The loop with a seen set keeps first occurrences. |
| Redeemers.Deduplicated | docs/sources/apollo/dijkstra_guards.go:135-156 | The guard list has no repeats and the same credentials. |
| Redeemers.DeduplicatedKeepsOrder | docs/sources/apollo/dijkstra_guards.go:135-156 | First occurrences stay in order. |
| Redeemers.SortedPoliciesDistinct | docs/sources/apollo/apollo.go:3685-3696 | Mint policies are listed once each, strictly ascending. |
| Redeemers.IndexOf | docs/sources/apollo/apollo.go:3545-3621 | The first position of a name, or proof that it is absent. |
| BodyIntegrity.SameDecodedValue | docs/sources/apollo/transaction_body_integrity.go:76-164 | The recursive comparison decides the declarative one, in which maps match by a bijection of entries. |
| BodyIntegrity.SameByMatching | docs/sources/apollo/transaction_body_integrity.go:125-143 | The greedy first-match loop returns true exactly when a bijection between the entries exists. |
| BodyIntegrity.SameByKey | docs/sources/apollo/transaction_body_integrity.go:116-124 | Looking every left key up decides the same for keys compared by value. |
| BodyIntegrity.StuckMeansNoMatching | docs/sources/apollo/transaction_body_integrity.go:128-142 | An entry without an unused partner rules out every bijection, so greed needs no backtracking. |
| BodyIntegrity.LookupAgreesWithMatching | docs/sources/apollo/transaction_body_integrity.go:116-186 | On key types with value equality both map branches decide the same question. |
| BodyIntegrity.ValueKeysCompareExactly | docs/sources/apollo/transaction_body_integrity.go:166-186 | On those key types the comparison is plain equality. |
| BodyIntegrity.Reflexive | docs/sources/apollo/transaction_body_integrity.go:76-164 | Every value is the same as itself. |
| BodyIntegrity.Symmetric | docs/sources/apollo/transaction_body_integrity.go:76-164 | The comparison is symmetric. |
| BodyIntegrity.Transitive | docs/sources/apollo/transaction_body_integrity.go:76-164 | The comparison is transitive, matchings of maps included. |
| BodyIntegrity.CachesAreIgnored | docs/sources/apollo/transaction_body_integrity.go:83-85 | Two values compare as they do with every cache emptied. |
| BodyIntegrity.ListingIsIrrelevant | docs/sources/apollo/transaction_body_integrity.go:112-143 | The order in which a map's entries are visited does not matter. |
| PagePool.EveryRunDelivers | docs/sources/blockfrost-go/api_account.go:320-361 | Every interleaving is finite; no page is ever lost, repeated or out of range; a run that can go no further has delivered pages 1 to N once each and closed, with F+1 <= N <= F+2R+1. |
| PagePool.StepKeepsInv | docs/sources/blockfrost-go/api_account.go:320-361 | Every step of every thread keeps each issued page in exactly one place and the quit signal neither early nor late. |
| PagePool.NeverStuck | docs/sources/blockfrost-go/api_account.go:328-360 | While the consumer drains, some step is possible until the results are closed and empty. |
| PagePool.StepUsesBudget | docs/sources/blockfrost-go/api_account.go:320-361 | Every step uses up a bounded budget. |
| PagePool.FewShortPages | docs/sources/blockfrost-go/api_account.go:346-356 | Before a short page is seen, at most 2R pages beyond the full ones are out. |
| PagePool.ClosedAfterEveryPage | docs/sources/blockfrost-go/api_account.go:344-360 | Once the result channel closes, each issued page is in it or received, once. |
| PagePool.RunKeepsInv | docs/sources/blockfrost-go/api_account.go:320-361 | Every reachable state keeps the invariant and has spent its budget. |
| SelectedNoneWorker.EveryDeferralIsDrained | docs/sources/dingo/node_chainsync_recycler.go:432-513 | In every interleaving, once nobody is left to look at a pending event, the worker has taken an event after each deferral, and took the newest one deferred by then. |
| SelectedNoneWorker.StalledSelectionIsCleared | docs/sources/dingo/node_chainsync_recycler.go:345-513 | In every interleaving, if the selector has had no best peer since an event was raised, then once handlers and worker are at rest no connection is active, however the event was handled and whatever raced with it. |
| SelectedNoneWorker.WantedStaysActive | docs/sources/dingo/node_chainsync_recycler.go:285-400 | While the selector wants the active connection, no event and no switch takes it away, unless someone had already passed its recheck. |
| SelectedNoneWorker.OldAnswerTakesActive | docs/sources/dingo/node_chainsync_recycler.go:375-399 | That condition is exact: whoever is past its recheck can take the wanted connection away in one step. |
| SelectedNoneWorker.RecheckCanBeOutrun | docs/sources/dingo/node_chainsync_recycler.go:375-399 | A run in which it happens: the peer is lost and selected again between recheck and clearing. |
| SelectedNoneWorker.ClearedBetween | docs/sources/dingo/node_chainsync_recycler.go:364-400 | Without a best peer, neither handler nor worker gets past its event without clearing. |
| SelectedNoneWorker.ClearedUntilSelected | docs/sources/dingo/node_chainsync_recycler.go:285-400 | A cleared connection stays cleared until the selector has a best peer again. |
| SelectedNoneWorker.StepKeepsInv | docs/sources/dingo/node_chainsync_recycler.go:345-513 | A pending event always has a wake token, a draining worker or a handler mid-send; the worker takes only a set slot, and what it takes is the newest deferred event. |
| SelectedNoneWorker.RunKeepsInv | docs/sources/dingo/node_chainsync_recycler.go:345-513 | The invariant holds in every reachable state. |
| SelectedNoneWorker.PendingIsDrained | docs/sources/dingo/node_chainsync_recycler.go:458-513 | While the lock stays free of others, a bounded number of worker and sender steps takes the pending event. |
| SelectedNoneWorker.DrainComesNearer | docs/sources/dingo/node_chainsync_recycler.go:458-513 | Some such step is always possible and each brings the draining nearer. |
| SelectedNoneWorker.RetrySchedule | docs/sources/dingo/node_chainsync_recycler.go:516-527 | Under contention the interval doubles from 10 ms and is capped at one second. |
| PortablePaths.Allocator.PortableRelpath | scripts/_fetch_docs.py:89-111 | The suffix search ends at the first name no other path holds; a revisited path finds its name and changes nothing; a new name was held by nobody, and no claim is overwritten. |
| PortablePaths.Allocator.FreeNumber | scripts/_fetch_docs.py:104-107 | The while loop terminates with the first free number. |
| PortablePaths.Allocator.AllocateAll | scripts/_fetch_docs.py:89-111 | Over any sequence of paths, revisits included, every path holds its name to the end. |
| PortablePaths.FirstFreeIsClaimed | scripts/_fetch_docs.py:102-111 | Claiming the first free candidate keeps every path on its own first free candidate. |
| PortablePaths.NamesDiffer | scripts/_fetch_docs.py:89-111 | Names fold together exactly when the paths are the same. |
| PortablePaths.NamesPass | scripts/validate.py:480-522 | All names produced, staged under any portable directory, pass validation without error. |
| PortablePaths.CandidateIsPortable | scripts/_fetch_docs.py:101-109 | Every name tried, numbered or not, has only portable components. |
| PortablePaths.ComponentIsPortable | scripts/_fetch_docs.py:77-86 | A rewritten component is portable, and a component is left alone exactly when it was portable. |
| PortablePaths.NumberedInjective | scripts/_fetch_docs.py:104-108 | Different numbers never give names that fold together. |
| PortablePaths.TakenNumbers | scripts/_fetch_docs.py:106-107 | Numbers two to n are all taken only if that many names are in use. |
| PortablePaths.NumberedLast | scripts/_fetch_docs.py:104-108 | Numbering a path numbers its last component, before that component's own extension. |
| PortablePaths.Validate | scripts/validate.py:480-522 | The loops with their dictionary of seen names report the specified errors in order, and the long paths as warnings. |
| PortablePaths.ReportEmptyIff | scripts/validate.py:492-516 | No error is reported exactly when all components are portable and no two paths fold together. |
| PortablePaths.SplitJoin | scripts/validate.py:496-497 | The components validated are the components joined. |

## Left out

- EveryRunDelivers: the server is fixed and answers without errors; the consumer receives until the channel closes. Merges a worker's fetch with its quit signal, which touch nothing another thread reads in between.
- EveryDeferralIsDrained: says nothing once the worker has been cancelled; an event deferred then is not drained, as in the code. What a restore or truncate does to the connection while it holds the lock is not modelled.
- NamesPass: a file whose rewritten name equals another path's rewritten directory cannot be staged beside it; the code reports and drops it, and validation of tracked paths does not look for it.
- SettleFee: without scripts and collateral convergence assumes that the price of the first balanced shape stays within int64, where the code's arithmetic wraps; `BuilderExample.ExampleChainFits` shows chains and builds that meet this.
- Complete: takes UTxOs with positive lovelace and outputs without negative quantities, which is what the ledger holds.
- EvaluationRound: input references, stake hashes and policies at the positions are distinct; redeemer positions fit uint32.
- AvailableMax: the average is Euclidean division of non-negative totals, as `big.Int` division is there.
- CBOR bytes: an output is a base size plus the width of its coin; everything else in the transaction is an uninterpreted `rest`, redeemer and sizing term, and the script data hash is represented by the budgets it hashes.
- Prices of execution units, the float safety buffer and reference-script tiers are given non-negative integers or error results.
- Loading of UTxOs, network validation, wallet-held collateral candidates, protocol-parameter lookup and cancellation are inputs or absent; so are the maximum transaction and value sizes checked after assembly.
- Witnesses, signing, metadata, the Dijkstra transaction form and its subtransactions are not modelled.
- Missing (nil) outputs, amounts and quantities are represented by out-of-range integers or absent entries.
- Policy and asset-name loops are one loop over (policy, name) pairs; in-place asset subtraction (`SubMultiAsset`) is a function on maps, so aliasing of bundles is not captured.
- `MinUtxo.Payment` stands apart from `Complete`: a build starts from outputs already raised to their minimum.
- Convenience setters, certificate constructors, other pagination pools (the early-returning one of api_governance.go included), floats inside compared bodies, and Dingo's dropped switch events add only easy members or do not have the property.
- Python's `lower` is any function that keeps hyphens and underscores, `casefold` any per-character one that keeps digits and the hyphen.
