# Pharos testnet bot: liquidity and run-loop model

This project models the core of a Node.js bot for the Pharos testnet. The bot
walks a list of wallets and runs a set of on-chain "features" for each one:
faucet, check-in, transfers, swaps, wrapping, a domain mint, an NFT mint and
Uniswap-V3-style liquidity addition. The model covers six parts of it:

- **Liquidity module** (`LiquidityCatalog`, `LiquiditySelection`,
  `LiquidityAllocation`, `LiquidityDeficit`, `LiquidityMint`, `LiquidityFlow`):
  - the token and pool catalog;
  - choosing the pools the wallet can afford, with a random count;
  - splitting the balances between the chosen pools by weight, without
    over-committing any token;
  - the deficit resolver, which wraps native PHRS or swaps from another token
    when nothing is affordable;
  - full-range ticks;
  - the token order of the mint;
  - the three-attempt confirmation wait;
  - the whole `executeLiquidityAddition` flow and its summary.
- **Configuration** (`ProductionConfig`):
  - the per-feature enable flags and their `cycleEnabled` split;
  - the preset table;
  - the loop and wallet settings;
  - the operations that rewrite them. These are methods of a `Configuration`
    object, because the source mutates one shared configuration.
- **Executor** (`ProductionExecutor`):
  - the generic `retry`;
  - the ten-transfer loop;
  - `processWallet`, which runs one wallet's features and records the
    once-only features it completed. That record is state of an `Executor`
    object.
- **Main loop** (`ProductionMain`):
  - reading the key and proxy files: split on newlines, trim, filter;
  - picking a proxy;
  - the wallet limit;
  - one cycle over the wallets, where a crashed wallet gets a placeholder
    result;
  - the cycle statistics;
  - the three stop rules of the endless loop.
- **Restart supervisor** (`AutoRestart`):
  - the restart decision, with a limit of ten restarts;
  - the supervisor object that reacts to child exits, spawn failures and
    shutdown signals.
- **Shared helpers** (`SeqUtil`, `Wrappers`): order-preserving filtering, sums,
  permutations, and `Option`/`Result`.

Everything the bot reads from the outside world becomes a parameter of the
model:
- balances, gas estimates and price estimates;
- transaction outcomes and receipt waits;
- random draws;
- file contents;
- per-wallet crashes.

Amounts are unbounded naturals in the token's smallest unit, as the source's
`BigNumber`s are. Where the source rounds with integer division, the model does
the same.

Behaviours of the code that the model follows, some of them at odds with the
source's own comments (for example "最多 maxPools", at most maxPools):
- A random pool count may exceed `maxPools` when `maxPools` is below 3.
  In paraphrase (the source's `minPools` is fixed at 3): the count is
  3 plus a random whole number below `min(maxPools, available) - 2`, raised to
  at least 3 and then capped at the number available, so it picks at least
  three pools whenever three are affordable. `SelectionSize` states the bound that does
  hold: at most `max(3, maxPools)`.
- The swap-amount clamp can return less than the minimum. The source's
  `if`/`else if` raises an estimate below the minimum to the minimum, but caps
  an estimate at or above the minimum at half the balance. That half is below
  the minimum when the balance is under twice the minimum. See
  `ClampCanGoBelowMinimum`.
- The deficit resolver reports success when it made no plan at all. See
  `VerdictMeaning`.
- The liquidity feature has no case in `processWallet`'s `switch`, so an enabled
  liquidity feature is listed but never run or counted. See `Handled` and
  `TallyCounts`.
- `retry` with `maxRetries <= 0` calls nothing and returns `undefined`. This is
  modelled as `Undefined`.
- The "no allocations" failure of `executeLiquidityAddition` cannot happen: every
  chosen pool is allocated. `ExecuteLiquidityAddition` proves that this error
  never occurs.
- The supervisor's exit code is `null` when the child is killed by a signal.
  This is modelled as `None`, and it leads to a restart like any other non-zero
  exit.
- `applyConfigPreset` throws on an unknown preset name. `ApplyConfigPreset`
  returns `false` and changes nothing instead.

## Model

| member | source | states |
|---|---|---|
| LiquidityCatalog.CatalogPoolsDistinct | liquidity_module.js:33-118 | every configured pool pairs two different tokens |
| LiquiditySelection.CollectAffordable | liquidity_module.js:573-594 | the scan keeps exactly the pools whose two base amounts the balances cover, in catalog order |
| LiquiditySelection.AffordableMembers | liquidity_module.js:577-593 | a pool is affordable-listed iff it is in the catalog and both of its tokens' balances reach the pool's base amounts |
| LiquiditySelection.SelectAvailablePools | liquidity_module.js:572-620 | the selected pools are the first `count` pools of a random reordering of the affordable list |
| LiquiditySelection.SelectionSize | liquidity_module.js:596-612 | the count is at least min(3, affordable) and at most the affordable count; it is all of them when at most three are affordable; it is at most maxPools when maxPools >= 3 and at most max(3, maxPools) always; it is zero iff nothing is affordable |
| LiquiditySelection.SelectionFromAvailable | liquidity_module.js:602-612 | no pool is selected more often than it is affordable, and all affordable pools are selected when there are at most three |
| LiquiditySelection.SelectedAffordable | liquidity_module.js:575-612 | every selected pool is a catalog pool the balances can afford |
| LiquidityAllocation.SortByWeightCorrect | liquidity_module.js:637 | sorting by weight gives a descending order, a permutation, and keeps equal-weight pools in their input order (a stable sort) |
| LiquidityAllocation.Cap | liquidity_module.js:689-690 | the per-pool cap never exceeds the available amount of the token |
| LiquidityAllocation.Lowered | liquidity_module.js:692-700 | an amount above its cap is lowered to the cap, and one below it is kept |
| LiquidityAllocation.OfferAlwaysCommits | liquidity_module.js:680-713 | with at least one pool remaining, the sufficiency check (`gte` on both balances) always passes, so every pool gets an offer, each amount within its scaled base amount and within its share of the available balance |
| LiquidityAllocation.PlanFromWithin | liquidity_module.js:639-719 | committing pools one after another never spends more of a token than the wallet holds |
| LiquidityAllocation.PlanFromCovers | liquidity_module.js:639-719 | each remaining pool receives exactly one allocation, in order, computed from what the earlier allocations left |
| LiquidityAllocation.PlanCorrect | liquidity_module.js:625-724 | one allocation per pool; the allocated pools are the input pools sorted by weight (descending, stable, a permutation); the allocations together stay within the balances |
| LiquidityAllocation.TotalsAfterCommit | liquidity_module.js:711-712 | updating the used-amount map after a commit gives the totals of the extended allocation list |
| LiquidityAllocation.CappedAmounts | liquidity_module.js:680-700 | the scaled and capped amounts are the offer the plan makes for the pool |
| LiquidityAllocation.AllocateNext | liquidity_module.js:639-719 | one loop step keeps the used-amount map equal to the totals and within the balances, and advances the plan by one pool |
| LiquidityAllocation.CalculateBalanceAllocation | liquidity_module.js:625-724 | the loop computes the plan, and no token is over-committed |
| LiquidityDeficit.ClampWithinBalance | liquidity_module.js:431-455 | the swap amount never exceeds the source balance |
| LiquidityDeficit.ClampSwapAmount | liquidity_module.js:431-453 | the swap amount is the estimate, the minimum, half the balance or 90 % of the balance |
| LiquidityDeficit.ClampCases | liquidity_module.js:435-447 | a computed amount between the minimum and half the balance is kept; one below the minimum is raised to it; one above half the balance is cut to half |
| LiquidityDeficit.ClampPositive | liquidity_module.js:431-455 | with a positive minimum below the balance, the swap amount is positive |
| LiquidityDeficit.ClampCanGoBelowMinimum | liquidity_module.js:438-453 | a 1.5e6 balance with a 1e6 minimum swaps only 750000, below the minimum |
| LiquidityDeficit.Routes | liquidity_module.js:352-358 | each target has two candidate sources, neither of them the target |
| LiquidityDeficit.CreateSwapPlan | liquidity_module.js:349-394 | a plan is for the target and the whole deficit, swaps from one of the target's route sources, and has a positive amount |
| LiquidityDeficit.FirstPlanIsFirstUsable | liquidity_module.js:362-393 | the plan uses the first source in route order whose balance is known and above one whole token and whose rate estimate is defined; there is no plan iff no source qualifies; a plan is for the target and its deficit, with a positive amount within the source balance |
| LiquidityDeficit.CreateSwapPlanCorrect | liquidity_module.js:349-394 | a swap plan targets the short token from a usable route source, and none is made iff no route source is usable |
| LiquidityDeficit.WrapSucceeds | liquidity_module.js:182-252 | a successful wrap had its deposit mined and left a WPHRS balance of at least the requirement |
| LiquidityDeficit.WrapMonotone | liquidity_module.js:189-200 | a larger native balance never turns a successful wrap into a refused one |
| LiquidityDeficit.ShortWrapFallsBack | liquidity_module.js:182-294 | for a short WPHRS requirement a successful wrap makes no plan; with the native balance unknown or below 120 % of the requirement plus the 0.01 PHRS reserve, the requirement falls back to a swap plan from USDC or USDT for the whole deficit, made iff one of them qualifies |
| LiquidityDeficit.CountTruePositive | liquidity_module.js:300-313 | the success count is positive iff some swap succeeded |
| LiquidityDeficit.AnyWrapMeaning | liquidity_module.js:264-294 | the running "a wrap was tried" flag of the plan loop holds iff some requirement so far is a short WPHRS requirement |
| LiquidityDeficit.CollectSwapPlans | liquidity_module.js:264-294 | the loop builds the plan list `SwapPlans`, and a wrap is tried iff some short requirement is WPHRS |
| LiquidityDeficit.SwapPlans | liquidity_module.js:264-294 | the first loop makes at most one plan per requirement |
| LiquidityDeficit.PerformUniversalIntelligentSwap | liquidity_module.js:257-344 | the plans, the number of successful swaps among them, and the verdict |
| LiquidityDeficit.SwapPlansServeShortTokens | liquidity_module.js:264-294 | every plan serves a requirement whose token is short and whose wrap did not cover it |
| LiquidityDeficit.NothingShortNoPlans | liquidity_module.js:264-294 | when no requirement is short, no plan is made |
| LiquidityDeficit.VerdictMeaning | liquidity_module.js:296-338 | the resolver succeeds iff it made no plan, or some swap succeeded and re-reading the balances afterwards did not throw |
| LiquidityMint.TicksCorrect | liquidity_module.js:729-765 | the ticks are symmetric multiples of the fee's tick spacing, and they enclose the full-range tick by less than one spacing |
| LiquidityMint.CalculateTicks | liquidity_module.js:729-765 | the tick range encloses the fee tier's full range |
| LiquidityMint.CatalogTicks | liquidity_module.js:729-765 | for every catalog pool the ticks are exactly -T and T for the fee's full-range tick T |
| LiquidityMint.CeilMultiple | liquidity_module.js:757-760 | rounding up to the spacing gives a multiple of the spacing at most one spacing above the tick |
| LiquidityMint.FloorOfNegation | liquidity_module.js:757-760 | flooring the negated tick is the negation of rounding the tick up |
| LiquidityMint.LexTotal | liquidity_module.js:1098-1101 | string `<` is irreflexive, and exactly one order holds between two distinct strings |
| LiquidityMint.OrderForMintCorrect | liquidity_module.js:1098-1101 | the mint holds the same two tokens, each with its own amount, and the lower-case smaller address comes first |
| LiquidityMint.OrderForMint | liquidity_module.js:1096-1100 | the mint holds the same two tokens, each with its own amount, in one order or the other |
| LiquidityMint.CatalogMintOrder | liquidity_module.js:1098-1101 | USDC comes first in its pools, and the USDT/WPHRS pool is minted as WPHRS/USDT with the amounts swapped |
| LiquidityMint.MintParamsFor | liquidity_module.js:1085-1117 | the mint parameters hold the pool's fee, zero minimum amounts, the allocation's two tokens each with its own amount, and a tick range enclosing the full range |
| LiquidityMint.AwaitConfirmation | liquidity_module.js:1129-1153 | the waiting loop returns the confirmation `ConfirmFrom` and the number of waits it counts |
| LiquidityMint.WaitsBounded | liquidity_module.js:1129-1153 | at most three waits are made, and a wait that errors ends the loop |
| LiquidityMint.ConfirmedMeans | liquidity_module.js:1129-1155 | a receipt with a given status is obtained iff one of the three attempts returns it after only timeouts |
| LiquidityMint.TwoTimeoutsThenReceipt | liquidity_module.js:1129-1153 | two timeouts and then a receipt of status 1 confirm after three waits |
| LiquidityMint.MintResultMeans | liquidity_module.js:1155-1181 | a pool's mint succeeds iff approvals and sending went through and a status-1 receipt came within three attempts; only a success carries the transaction hash |
| LiquidityMint.AddLiquidityWithAllocation | liquidity_module.js:1075-1182 | the mint parameters are those of the allocation in mint order with full-range ticks, and the result is the mint outcome described by `MintResultMeans` |
| LiquidityFlow.ConfigMaxPools | liquidity_module.js:949 | the pool limit used (`maxPools \|\| 3`) is at least 1 |
| LiquidityFlow.SuccessfulTxsCount | liquidity_module.js:1045-1059 | the summary lists one transaction hash per successful pool, and it reports success iff some pool succeeded |
| LiquidityFlow.AddAllocations | liquidity_module.js:1006-1039 | the mint loop records one result per allocation, each the mint outcome of its pool, and counts the successes |
| LiquidityFlow.SelectionPlannable | liquidity_module.js:952-996 | any selection from the affordable catalog pools can be allocated against the balances |
| LiquidityFlow.ChoosePools | liquidity_module.js:949-988 | if pools are affordable they are selected directly; otherwise the resolver runs, and the result is a swap failure, a failed second balance read, no pools after the swap, or a selection from the re-read balances merged into the first |
| LiquidityFlow.MintChosen | liquidity_module.js:993-1059 | the chosen pools are allocated by the plan and minted, and the summary reports the totals, the successes and their hashes |
| LiquidityFlow.ExecuteLiquidityAddition | liquidity_module.js:935-1069 | a first balance read that throws fails the flow; otherwise the flow fails iff nothing is affordable and the resolver fails, the second balance read throws, or nothing is affordable afterwards; it never fails for lack of allocations; on success 1 to max(3, limit) pools are allocated and the summary matches the mint results |
| ProductionConfig.FeatureOrderComplete | production_config.js:10-107 | the feature list names every feature |
| ProductionConfig.FilterFeaturesMembers | production_config.js:439-453 | a feature appears in a filtered listing iff it passes the filter |
| ProductionConfig.EnabledMembers | production_config.js:439-441 | `getEnabledFeatures` lists exactly the features switched on |
| ProductionConfig.CyclableMembers | production_config.js:443-447 | `getCyclableFeatures` lists exactly the features switched on with `cycleEnabled` |
| ProductionConfig.OnceOnlyMembers | production_config.js:449-453 | `getOnceOnlyFeatures` lists exactly the features switched on without `cycleEnabled` |
| ProductionConfig.FeaturePartition | production_config.js:439-453 | the enabled list holds exactly the features switched on; the cyclable and once-only lists split it by `cycleEnabled`, keep its order, and share no feature |
| ProductionConfig.PresetMergeCorrect | production_config.js:416-417 | merging a preset that sets every loop or wallet field gives exactly the preset's values |
| ProductionConfig.MergeIdempotent | production_config.js:416-417 | applying a preset's settings twice is the same as applying them once, and an empty patch changes nothing |
| ProductionConfig.PresetTable | production_config.js:110-293 | a preset is found iff its name is one of the eleven presets |
| ProductionConfig.PresetNamed | production_config.js:110-293 | only the eleven preset names yield a preset |
| ProductionConfig.FullAutoFeatures | production_config.js:111-127 | FULL_AUTO enables every feature but wrapping, and the NFT mint is its only once-only feature |
| ProductionConfig.OnlyNftOnceOnly | production_config.js:85 | whenever the NFT mint is on, it is the only once-only feature |
| ProductionConfig.DomainOnlyFeatures | production_config.js:145-160 | DOMAIN_ONLY enables only the domain mint |
| ProductionConfig.TestModeSettings | production_config.js:193-208 | TEST_MODE runs a single cycle over a single wallet |
| ProductionConfig.AllOnListings | production_config.js:390-395 | with every flag on, every feature is enabled, all but the NFT mint are cyclable, and the NFT mint is once-only |
| ProductionConfig.AllOffListings | production_config.js:397-402 | with every flag off, all three listings are empty |
| ProductionConfig.Configuration.constructor | production_config.js:296-318 | the starting configuration: the feature table's flags, FULL_AUTO, a 15-minute loop with no cycle limit, all wallets |
| ProductionConfig.Configuration.SetFlags | production_config.js:412-414 | each flag becomes the preset's value, or off when the preset does not name it; nothing else changes |
| ProductionConfig.Configuration.ApplyConfigPreset | production_config.js:405-419 | a known preset sets the flags, merges the loop and wallet settings and records the name; an unknown one changes nothing |
| ProductionConfig.Configuration.CreateCustomConfig | production_config.js:356-381 | the defaults fill the missing options, the flags and settings are merged in, and the preset becomes CUSTOM |
| ProductionConfig.Configuration.SetWalletLimit | production_config.js:383-388 | the wallet limit is set, and all wallets are processed iff the limit is 0 |
| ProductionConfig.Configuration.EnableAllFeatures | production_config.js:390-395 | afterwards every feature is enabled, and only the NFT mint is once-only |
| ProductionConfig.Configuration.DisableAllFeatures | production_config.js:397-402 | afterwards no feature is enabled |
| ProductionConfig.Configuration.InitializeConfig | production_config.js:321-340 | the first call applies the current preset if it exists and marks the configuration initialised; later calls change nothing |
| ProductionExecutor.Retry | production_executor.js:62-72 | the loop gives the result `RetryFrom` describes, makes at most maxRetries calls, sleeps between calls, and returns the value of the first call that does not throw |
| ProductionExecutor.RetryMeaning | production_executor.js:62-72 | a value is returned iff one of the first maxRetries calls succeeds, and it is the first success; the last error is rethrown iff all of them throw; nothing is returned iff maxRetries <= 0 |
| ProductionExecutor.FeaturesToRunMembers | production_executor.js:359-365 | a feature is run iff it is on, and either cyclable or a once-only feature not yet completed; the cyclable features come first |
| ProductionExecutor.TallyCounts | production_executor.js:367-424 | each handled feature adds one result and one success or failure; the skipped liquidity feature adds nothing; results follow the handled features in order |
| ProductionExecutor.TallyCompleted | production_executor.js:373-408 | the completed set only grows, and only by once-only features whose run succeeded |
| ProductionExecutor.TallyOf | production_executor.js:367-424 | the results number the successes plus the failures, at most one per feature, and the completed set only grows |
| ProductionExecutor.Executor.constructor | production_executor.js:78-87 | a new executor has completed no once-only feature |
| ProductionExecutor.Executor.ProcessWallet | production_executor.js:344-435 | the wallet's results and counters are the tally of its feature list, and the completed set is updated accordingly |
| ProductionExecutor.Stop | production_executor.js:210-238 | the transfer loop stops at the first turn whose balance does not cover the amount plus gas, and no turn before it is short |
| ProductionExecutor.CountSentPositive | production_executor.js:226-245 | the sent count is positive iff some turn's send and wait went through |
| ProductionExecutor.ExecuteOriginalTransfer | production_executor.js:203-251 | the transfer counts the confirmed transfers before the first short balance among ten turns, and it succeeds iff that count is positive |
| ProductionExecutor.TransferMeaning | production_executor.js:210-245 | at most ten turns count, none of them short, and success means some of them went through |
| ProductionMain.Split | production_main.js:72 | splitting gives at least one piece, and no piece contains the separator |
| ProductionMain.SplitJoin | production_main.js:72 | joining the pieces with the separator gives back the text |
| ProductionMain.Trim | production_main.js:74 | trimming removes the leading and trailing whitespace and nothing else; the result is empty iff the line is all whitespace |
| ProductionMain.TrimIdempotent | production_main.js:74 | trimming twice is trimming once |
| ProductionMain.KeptLinesSound | production_main.js:72-75 | every kept line passes the filter, has no surrounding whitespace and no newline, and is the trim of some line of the file |
| ProductionMain.KeptLinesComplete | production_main.js:72-75 | every line whose trim passes the filter is kept |
| ProductionMain.LoadPrivateKeys | production_main.js:64-91 | the load fails as missing exactly when there is no file, and a successful load has at least one key |
| ProductionMain.LoadProxies | production_main.js:96-117 | no file means no proxies, and no proxy is an empty line |
| ProductionMain.PrivateKeysMeaning | production_main.js:64-91 | loading succeeds iff the file exists and has a non-empty line starting with 0x; a missing file fails as missing and a file without keys fails as keyless |
| ProductionMain.PrivateKeysContent | production_main.js:72-75 | for the lines of the file, every loaded key starts with 0x, is trimmed, and is the trim of one of the lines; every line whose trim starts with 0x is loaded |
| ProductionMain.ProxiesMeaning | production_main.js:96-117 | a missing proxy file gives no proxies; otherwise the proxies are exactly the non-empty trimmed lines |
| ProductionMain.GetRandomProxy | production_main.js:120-123 | there is no proxy iff the list is empty; otherwise the proxy is one of the list |
| ProductionMain.WalletsToProcess | production_main.js:228-230 | the wallets processed are a prefix of the keys: all of them when processAll is set or the limit is 0 or at least the key count, otherwise exactly the limit |
| ProductionMain.NothingLeftToRun | production_main.js:295-302 | a wallet has nothing left to run iff no cyclable feature is on and every once-only feature that is on has been completed |
| ProductionMain.ShouldStop | production_main.js:283-302 | with looping on, no cycle limit and some cyclable feature, the loop never stops |
| ProductionMain.NoEarlyStopMeaning | production_main.js:283-302 | the recorded loop did not stop early iff no stop rule held after any cycle before the last |
| ProductionMain.StopBounds | production_main.js:283-292 | a loop that stops at the first cycle where a rule holds runs one cycle when looping is off and at most maxCycles when that is set |
| ProductionMain.WalletEntryMeaning | production_executor.js:344-435 | a wallet's entry has consistent counters, and its run adds to the completed set only once-only features that are on and handled, forgetting none |
| ProductionMain.RunWallet | production_main.js:258-260 | the wallet's entry is exactly the tally of its features' outcomes and the completed set becomes the tally's; the entry's counters are consistent, and the completed set grows only by once-only features that are on and handled |
| ProductionMain.CycleOfMeaning | production_main.js:252-274 | in a cycle a crashed wallet records the placeholder, every other entry has consistent counters, and the completed set only grows, by once-only features that are on and handled |
| ProductionMain.RunCycle | production_main.js:252-274 | one result per wallet, in order, and the results and the completed set afterwards are exactly `CycleOf` the wallet runs, each wallet seeing the completed set its predecessors left; each wallet uses the drawn proxy when proxies are on; a crashed wallet records the placeholder |
| ProductionMain.OccurrencesMeaning | production_main.js:164-175 | a feature occurs among the results iff some result names it |
| ProductionMain.StatsMeaning | production_main.js:164-175 | the statistics have an entry for a feature iff it ran, holding its number of successes and of runs |
| ProductionMain.StatsSnoc | production_main.js:166-174 | counting one more result updates only that result's feature |
| ProductionMain.ShowCycleStats | production_main.js:150-182 | the statistics count the wallets, the wallets with a success, the features run and succeeded, and per-feature successes and runs |
| ProductionMain.CycleStatsBounds | production_main.js:154-175 | at most all wallets succeed, no feature succeeds more often than it ran, and with consistent counters no more features succeed than ran |
| ProductionMain.RunNumberedCycle | production_main.js:244-281 | the cycle's results and completed set are exactly `CycleOf` its wallet runs, and its statistics are `ShowCycleStats` of those results, covering every selected wallet |
| ProductionMain.CountWalletResults | production_main.js:164-175 | folding one wallet's feature results into the per-feature tallies gives the tallies of all results seen so far, those of this wallet appended |
| ProductionMain.RecordedMeaning | production_main.js:241-304 | the record gives, for every cycle, its results and completed set as `CycleOf` the cycle's runs from the set the previous cycle left, and its statistics as the summary of its results over all wallets |
| ProductionMain.RunCycles | production_main.js:241-304 | the loop's record starts from the executor's completed set and ends with it; no cycle before the last met a stop rule, and the loop finished iff the last cycle met one; otherwise the round bound ran out |
| ProductionMain.RunBot | production_main.js:208-315 | the bot stops when no feature is enabled or the key file fails, and then runs no cycle; otherwise the cycles are recorded as in `RunCycles` over the selected wallets, the loop stops at the first cycle where a stop rule holds, it runs one cycle when looping is off and at most maxCycles when that is set |
| AutoRestart.ShouldRestart | auto_restart.js:116-135 | a restart only below the restart limit and never after a clean exit (code 0) |
| AutoRestart.ShouldRestartCases | auto_restart.js:116-135 | no restart at the limit or after a clean exit, a restart otherwise, and the run time never changes the decision |
| AutoRestart.RestartsBounded | auto_restart.js:94-135 | whatever the exits, the restart count never passes ten |
| AutoRestart.CrashLoopReachesLimit | auto_restart.js:94-135 | a child that keeps crashing is restarted exactly up to the limit |
| AutoRestart.CleanExitEnds | auto_restart.js:116-135 | restarts stop at the first clean exit |
| AutoRestart.AutoRestarter.constructor | auto_restart.js:21-28 | a new supervisor has made no restart, runs no child and is not shutting down |
| AutoRestart.AutoRestarter.HandleProcessExit | auto_restart.js:94-114 | an exit is ignored during a shutdown; otherwise the child is gone, and either one more restart is counted or the supervisor exits with status 1 |
| AutoRestart.AutoRestarter.StartProcess | auto_restart.js:62-92 | a start is ignored during a shutdown; otherwise the child runs from now on, or a spawn failure is handled as an exit with code 1 |
| AutoRestart.AutoRestarter.Shutdown | auto_restart.js:157-180 | the supervisor starts shutting down, asks a running child to terminate, and exits with status 0 |

## Left out

- Chain reads and writes are not modelled. Balances, gas estimates,
  `quoteExactInputSingle` price estimates, `executeTokenSwap`, deposits,
  approvals and receipts are parameters. Their outcomes are inputs, not
  computed.
- `approveTokens` becomes one `approved` flag per mint. The model does not
  capture the allowance check or the approval transactions.
- The swap amount's floating-point estimate (`calculateSwapAmount` before the
  clamp) is an input. The model covers only the integer clamp that follows it.
- Every use of `Math.random` is an input: the pool shuffle, the pool count and
  the proxy choice. The shuffle is a permutation, and the model does not
  capture its distribution.
- Timers are left out: `sleep`, `waitCountdown`, the 30-second restart delay, the
  health check interval and the run-time warning.
- Writing the preset back to `production_config.js` inside `applyConfigPreset`
  is not modelled. It is file I/O.
- Logging, banners and printing are left out: `showSystemStatus`,
  `printCurrentConfig`, `showBanner`, `showStats` and every `console.log`.
- The mint's `recipient`, `deadline` and gas limit are not part of
  `MintParams`. The zero minimum amounts are part of it.
- The feature names and descriptions of the feature table are not modelled.
- `addLiquidity`, which nothing in the core calls, is not modelled.
- The HTTP faucet, login and check-in requests and the remaining features
  (swap, wrap, domain and NFT mints) are not modelled. They appear only through
  their success or failure outcome.
- `spawn`, process signals and log files are left out of the supervisor. Their
  effects are the parameters of its methods.
- RunBot: the endless `while (true)` loop is bounded by a `rounds` parameter.
  `OutOfRounds` means the bound ran out, and the model says nothing about
  behaviour beyond it.
- RunCycles: the main loop runs at most `rounds` cycles, the same bound as in
  RunBot.
- Private keys are handled as strings; the wallets derived from them are not
  modelled.
- An exception thrown by `processWallet` is modelled as a `Crashed` wallet run.
  Where the throw happened is not modelled.
- LiquidityDeficit.PerformUniversalIntelligentSwap: the balances after the swaps
  are an input (`recheckOk`). The model does not derive them from the swaps.
