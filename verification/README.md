# Treasury verification model

A Dafny model of the faucet's **Treasury**, the serialised actor that chooses coins, broadcasts
transactions and keeps the books behind every limit, together with the chain-client decisions it
relies on and its byte-level codecs. `dafny verify dfyconfig.toml` checks the whole project.

The code that walks and updates tables is modelled by classes and loops, each proved equal to a
specification function; the theorems are about those functions and about whole runs of them.

| Files | Part of the system |
|---|---|
| `Coins` `Views` `Selection` `Merging` `Sparing` | coin selection: exchange arguments over multisets of coins |
| `Builders` `Planner` `Maintenance` `Wallet` `Passes` | transaction arithmetic, merge planning, and why maintenance comes to rest |
| `Ledger` `Conservation` `Settlement` `Runs` `Coinbase` | the in-flight coin ledger, broadcast settlement, and whole-run safety |
| `Windows` `Limits` `Accounts` | public limits, API keys and redemption codes over runs with pruned tables and interleaved edits |
| `Vouchers` `VoucherRuns` | the invitation voucher lifecycle |
| `Tip` | the best-known tip and where a listing may be read from |
| `Octets` `Dapi` `Socket` `Cap` | protobuf/grpc-web, HTTP chunked bodies, captcha tokens |

## How to read it

- **Runs.** `Ledger`/`Runs`, `Limits`, `Accounts` and `VoucherRuns` are state machines. A run is any sequence of
  allowed steps whose clock never goes back; explorer listings, relay answers, ChainLock answers and
  admin edits are arbitrary. `serialize` is mutual exclusion: a locked operation is one step, except that
  a key or code payout is a check step and a record step with any unlocked edits in between.
- **Fees.** The fee ceiling is an arbitrary function of inputs, outputs and payload bytes; only the
  termination results need it to be at least 1 duff (`Passes.Priced`). The dust threshold is a parameter.
- **Identities.** Transaction ids, addresses, IPs, device hashes, key and code ids are numbers: they are
  only ever compared. A key's id stands for its hash, a code's id for its normalised form.
- **Time.** `utcDay` strings are day numbers; they are only compared and ordered.
- **`0.99`.** The split arithmetic is done exactly, as 99/100.

## Where the code falls short of a plain statement

These are proved, with the exact condition or a concrete run:

- With `poolTarget` 0 the negative slice at src/treasury.ts:1861 keeps every pool coin instead of none
  (`Planner.KeptPoolSmallest` says exactly when the intended number is kept).
- A pass that waits for coins to confirm books its own follow-up too (src/treasury.ts:1792-1793), so while nothing
  confirms the chain of passes has no bound: whatever wallet waits once waits any number of times unchanged
  (`Passes.WaitsUnbounded`; `Passes.HalvesWait` is one). Acting passes are bounded all the same
  (`Passes.PassesEnd`), a pass waits only while a coin is unconfirmed (`Passes.WaitNeedsUnconfirmed`), and when coins
  confirm within some number of waits the chain is finite, however fast passes follow one another
  (`Passes.ChainEnds`).
- A late recording of an unresolved voucher (src/treasury.ts:1642-1661) can re-add change that was already
  spent. `Runs.PhantomRun` is a run in which it does, `Runs.LatePhantomIff` says exactly when one more late
  recording lets a spent coin back into a view, and `Runs.NoPhantomsIff` exactly which runs never do.
- The public retry hint (src/treasury.ts:809-812) is computed from the oldest hit, which is enough when no hit of
  the hour was admitted under a higher ceiling than the request's (`Limits.PublicRetryOpens`). A lower tier's ceiling
  can be exceeded by hits admitted under a higher one: `Limits.PublicHintTooShort` is a run of two hard payouts
  after which a soft request is told to wait, and told again when it comes back. `Limits.PublicHintOpensIff` is the
  exact condition. A ceiling of 0, which the config accepts, never opens.
- An edit never compares a new cap with the redemptions so far, so it can leave the counter above the cap: a plain
  edit does (`Accounts.PlainEditBelowCount`), and so does one to the count itself while a payout of the code is being
  broadcast (`Accounts.CapMayShrinkBelowCount`). `Accounts.CapsHoldIff` says exactly when no code is ever over its
  cap; the counter never exceeds the largest cap ever set in any case.
- `consumeCapToken` deletes expired rows but never compares a token's own expiry with its clock.
  `Cap.AcceptedIff` says exactly when a token is accepted a second time, `Cap.LateReuse` is an instance.
- A pool coin size at or above the collateral size, which the config accepts, leaves no coin counting as a pool coin
  (`Passes.PoolOutOfReach`); below it every split refills the pool (`Passes.SplitRefills`).
- `dechunk` passes over the two bytes after a chunk's data without looking at them (`Socket.BodyIff`).

## Model

| member | source | states |
|---|---|---|
| `Selection.LargestFirst` | src/tx.ts:159-168 | the loop returns the shortest prefix that pays for its target and its own fee; no shorter one does, and none at all when it gives up |
| `Selection.SelectInputs` | src/tx.ts:146-182 | the selection code computes `Select`, which the lemmas below are about |
| `Selection.PrefixDecides` | src/tx.ts:159-168 | on coins sorted largest first, greedy is complete (a prefix covers iff any choice does), minimal in cardinality and maximal in sum |
| `Selection.SelectAlone` | src/tx.ts:156-157 | when one coin suffices, the smallest such coin is chosen |
| `Selection.SelectSettled` | src/tx.ts:159-181 | otherwise the fewest confirmed coins that cover target and fee, the largest sum of that many, and both refusals exactly when they apply |
| `Selection.SelectComplete` | src/tx.ts:146-182 | refused as insufficient iff no non-empty choice covers; as unconfirmed iff some do and all of those join two or more coins of which one is unconfirmed |
| `Selection.RefusalAmounts` | src/tx.ts:174-181 | the amounts both refusals report |
| `Selection.SelectSound` | src/tx.ts:146-182 | whatever is selected is a choice of wallet coins that covers target and fee, confirmed unless it is a single coin |
| `Selection.SelectMinimal` | src/tx.ts:146-182 | no covering choice of confirmed coins is smaller than the selection |
| `Merging.SelectMergeInputs` | src/tx.ts:195-214 | running sums and two subtractions compute the same pick as adding up each shape |
| `Merging.ReachesIff` | src/tx.ts:195-214 | `reaches` iff some choice of at most min(maxInputs, n) coins is worth the target and the fee of that many inputs |
| `Merging.MergeReaches` | src/tx.ts:195-214 | exactly min(maxInputs, n) wallet coins; worth the target and the fee of that many inputs when it reaches; short of that, the largest possible sum |
| `Merging.MergeSweepsRun` | src/tx.ts:184-189 | the merge spends the whole run of smallest coins it is credited with |
| `Merging.MergeSweepsMost` | src/tx.ts:184-189 | a run of smallest coins that fits into some choice of that size worth the target and its fee is in the merge too |
| `Builders.FinishTx` | src/tx.ts:283-313 | the script walk finds exactly our outputs at their positions |
| `Builders.FinishBalances` | src/tx.ts:283-313 | inputs = fee + what leaves + what returns, for every transaction; own outputs have distinct outpoints of its id |
| `Builders.BuildSplit` | src/tx.ts:374-417 | the builder computes `Split` branch by branch |
| `Builders.SplitBuilds` | src/tx.ts:374-417 | a split is built iff its amount can be selected: the negative-change and pool-count refusals are unreachable; at least `count` pool coins return; the fee is the ceiling, or all that is left when that is within dust of it |
| `Builders.ConsolidationBuilds` | src/tx.ts:426-449 | built iff two or more coins are worth more than fee and dust; exactly one coin returns, worth inputs minus fee; a refusal names both amounts |
| `Builders.AssetLockBuilds` | src/tx.ts:239-281 | built iff the amount can be selected (negative change is unreachable), and `voucherAmount` recovers exactly the amount locked |
| `Builders.PayoutBalances` | src/tx.ts:316-367 | built iff the amount can be selected and the draft pays the recipient exactly it; the selection leaves room for the fee ceiling, and the fee is what goes in less the amount and the change, never negative when the change fits what is left |
| `Builders.SplitRefusals` | src/tx.ts:374-417 | the amounts a refused split reports |
| `Builders.AssetLockRefusals` | src/tx.ts:239-258 | the amounts a refused asset lock reports, with its 36 payload bytes |
| `Builders.PayoutRefusals` | src/tx.ts:316-332 | the amounts a refused payout reports |
| `Sparing.FundComplete` | src/tx.ts:316-332 | a payout is funded iff one coin, or at most `maxPayoutInputs` confirmed coins, cover it |
| `Sparing.FundRefusals` | src/tx.ts:322-332 | each refusal exactly when it applies and with its amounts; too fragmented only when no choice has fewer inputs than it names |
| `Sparing.SparingSpares` | src/treasury.ts:975-1002 | sparing never refuses what the wallet could fund, and spends a collateral coin iff the smaller coins admit no funding at all |
| `Planner.KeptPoolSmallest` | src/treasury.ts:1856-1863 | the kept pool coins are the `poolTarget` smallest below the goal, exactly when the target is positive or there are none |
| `Planner.KeptCollateralSmallest` | src/treasury.ts:1865-1872 | the kept collateral coins are the `collateralCoins` smallest of collateral size |
| `Planner.MaterialShape` | src/treasury.ts:1851-1864 | material is exactly the coins below the goal that are not kept pool coins |
| `Planner.MergeMaterialShape` | src/treasury.ts:1841-1845 | material is exactly the coins below the goal that are no kept pool coins, kept collateral coins being among them iff everything else sums below the goal |
| `Planner.PlanMergeSound` | src/treasury.ts:1896-1925 | every goal merge has 2 to `maxPayoutInputs` distinct confirmed coins, each below the goal, no kept pool coin, a kept collateral coin only when all other material falls short |
| `Planner.PlanMergeIff` | src/treasury.ts:1896-1925 | nothing is planned iff the material sums below the goal or, all confirmed, admits neither a reaching merge nor a full-sized one of two or more that leaves confirmed coins behind; waiting iff the same with some coin unconfirmed; a merge otherwise, reaching iff it can |
| `Planner.PlanMergeWaits` | src/treasury.ts:1909-1923 | waiting means the material suffices, no confirmed choice of the allowed size does, and some material is unconfirmed |
| `Planner.PlanMergePartial` | src/treasury.ts:1906-1924 | a partial merge leaves confirmed coins behind and takes the largest sum possible |
| `Planner.PlanTidySound` | src/treasury.ts:1883-1890 | tidying happens iff more than five loose coins exist and two may be merged; it takes the smallest loose coins, as many as allowed |
| `Planner.LooseIff` | src/treasury.ts:1883-1887 | the loose coins are the confirmed ones below collateral size that are no kept pool coins |
| `Maintenance.Demands.MergeDemand` | src/treasury.ts:1931-1939 | drops exactly the demands some coin meets and returns the largest left |
| `Maintenance.Demands.ConsolidatePass` | src/treasury.ts:2045-2064 | the goal loop and the tidying fallback compute `Consolidate`, table included |
| `Maintenance.ConsolidateDemands` | src/treasury.ts:2045-2064 | met demands are never kept and every other one is, except that the largest is forgotten iff nothing can be done toward it, nor toward a larger goal tried first; nothing smaller goes with it |
| `Maintenance.ConsolidatePlan` | src/treasury.ts:2045-2064 | the larger of the payout waited for and the missing collateral coin is tried first, the other when that has no plan, tidying when neither has one |
| `Maintenance.MergeBuildsGoal` | src/treasury.ts:1896-2100 | a goal merge that reaches is built, and the one coin it makes is worth at least the goal after its fee |
| `Maintenance.SplitSparesCollateral` | src/treasury.ts:1964-1983 | a split takes the largest coin that refills the pool and is no kept collateral coin; only with no such coin and no refill merge does it fall back to the largest coin of all |
| `Maintenance.DecideLowIff` | src/treasury.ts:1954-1998 | with the pool low: merge iff a refill merge applies, else split iff two or more pool coins can be afforded, with the most that are wanted and affordable, else blocked |
| `Maintenance.DecideFullIff` | src/treasury.ts:1960-2068 | with the pool full: merge, wait or idle exactly as the consolidation plans |
| `Maintenance.PoolIs` | src/treasury.ts:1954-1959 | pool coins are those of at least pool size, below collateral size when collateral coins are kept |
| `Maintenance.RefillGoalLeast` | src/treasury.ts:1977 | the refill goal is the least coin that pays for two pool coins with its headroom |
| `Passes.DecideSound` | src/treasury.ts:1941-2100 | whatever a pass spends is a sound merge or a coin of the wallet split in two or more |
| `Passes.ActSpends` | src/treasury.ts:1996-2100 | a pass's transaction spends the planned coins, balances, pays a fee, and keeps everything else in the wallet |
| `Passes.ActShrinks` | src/treasury.ts:1996-2100 | every acting pass strictly lowers the balance, every merge the number of coins |
| `Passes.SplitRefills` | src/treasury.ts:1954-2024 | with a pool size below the collateral size every split raises the number of pool coins by at least one |
| `Passes.PoolOutOfReach` | src/treasury.ts:1954-1959 | with collateral coins kept and a pool size at or above theirs, no wallet has a pool coin |
| `Passes.HeadroomSuffices` | src/treasury.ts:1980-2008 | the 1% headroom is enough: with the pool low and two more coins wanted, a splittable coin whose hundredth covers the fee is always split |
| `Passes.PassesEnd` | src/treasury.ts:1787-1797 | in any undisturbed run, waiting passes included, the passes that act are at most as many as there are duffs |
| `Passes.WaitNeedsUnconfirmed` | src/treasury.ts:1792-1793 | a pass waits only while some coin of the wallet is unconfirmed |
| `Passes.ChainEnds` | src/treasury.ts:1787-1797 | however fast passes follow one another, when coins confirm within k waits all the passes that book their own follow-up, acting or waiting, number at most k + 1 for each duff the wallet loses, and k more: the chain is finite |
| `Passes.WaitsUnbounded` | src/treasury.ts:1792-1793 | while nothing confirms, every wallet that makes a pass wait makes it wait and rebook any number of times, unchanged |
| `Passes.HalvesWait` | src/treasury.ts:1911-1923 | two unconfirmed coins of 600 DASH, short of a collateral coin, are such a wallet |
| `Passes.MergesEnd` | src/treasury.ts:2026-2100 | a stretch without splits merges fewer times than the number of coins it starts with |
| `Wallet.UnspentSum` | src/treasury.ts:612-641 | spending distinct coins of the view takes exactly their sum and number |
| `Wallet.AfterSum` | src/treasury.ts:685-709 | the wallet's sum moves by exactly inputs out and own outputs in |
| `Wallet.AfterView` | src/treasury.ts:685-709 | a fresh transaction's outputs collide with no coin already held |
| `Ledger.CoinLedger.LockInputs` | src/treasury.ts:685-694 | every input, and nothing else, is guarded from now |
| `Ledger.CoinLedger.RecordSpend` | src/treasury.ts:696-709 | inputs guarded, own outputs put in insertion order with replacement |
| `Ledger.CoinLedger.Reconcile` | src/treasury.ts:562-595 | both loops, in any row order, leave exactly the guards neither settled nor stale, and the pending rows neither listed nor twin of a settled guard |
| `Ledger.CoinLedger.Prune` | src/treasury.ts:536-551 | exactly the pending rows past their time go |
| `Ledger.CoinLedger.SpendableUtxos` | src/treasury.ts:602-642 | reconciles, then lists explorer coins and unlisted own outputs that are neither guarded nor immature |
| `Conservation.ViewOfView` | src/treasury.ts:619-641 | the view holds each outpoint once, nothing guarded or immature, only listed or pending coins |
| `Conservation.ViewIff` | src/treasury.ts:602-642 | a coin is in the view iff it is unguarded, mature, and listed, or pending and not listed |
| `Conservation.ReconcileMasks` | src/treasury.ts:562-595 | reconciling never drops a guard and leaves its pending twin: a guarded coin is in the view that follows, guard or no guard, only if the explorer lists it |
| `Conservation.GuardIff` | src/treasury.ts:562-586 | a guard is kept iff it is at most 24 hours old and listed, or at most 30 minutes old and not |
| `Conservation.PendingIff` | src/treasury.ts:573-594 | a pending row is kept iff it is not listed and no guard on it has settled |
| `Conservation.StaleReturns` | src/treasury.ts:582-585 | a listed coin whose guard is stale is spendable again |
| `Conservation.PruneIff` | src/treasury.ts:536-551 | a pending row is forgotten iff it is older than an hour |
| `Conservation.RecordView` | src/treasury.ts:602-709 | recording a fresh transaction takes its inputs out of the view, puts its own outputs in, and changes nothing else |
| `Conservation.RecordConserves` | src/treasury.ts:602-709 | with the listing unchanged, recording lowers the spendable sum by exactly the external outputs plus the fee |
| `Settlement.BroadcastResult.Relay` | src/chain/index.ts:318-354 | the shared result gathers every answer in order; exactly the silent or lying evonodes are benched |
| `Settlement.BroadcastResult.Run` | src/chain/index.ts:290-316 | one broadcast: fallbacks only when nobody configured took it, unvouched acceptance counted as silence |
| `Settlement.AskAll` | src/chain/index.ts:369-382 | yes only from a configured provider; no iff someone said no; otherwise unknown |
| `Settlement.SettleBroadcast` | src/treasury.ts:1294-1349 | the settlement computes `Settle` over two rounds and two lookups |
| `Settlement.BroadcastReports` | src/chain/index.ts:290-316 | a broadcast reports acceptance iff a configured relay vouches, ambiguity iff some answer is uncertain, missing inputs iff some relay said so |
| `Settlement.BroadcastNames` | src/chain/index.ts:290-354 | which relays a broadcast names as accepting, unclear and rejecting, and with which reason |
| `Settlement.AskedIff` | src/chain/index.ts:290-309 | who is asked: every relay-capable configured provider, and the fallbacks iff none of those took it |
| `Settlement.BenchedIff` | src/chain/index.ts:318-354 | the evonodes benched are exactly those whose answer is unclear |
| `Settlement.LiveIffVouched` | src/treasury.ts:1294-1326 | success iff a configured provider vouched, at once, on the retry an uncertain round earns, or by lookup; never on evonodes alone |
| `Settlement.LiveNames` | src/treasury.ts:1294-1326 | whom a success names: those that took it in the round that settled it, nobody when a lookup did |
| `Settlement.VerdictIff` | src/treasury.ts:1294-1349 | when each of the other four verdicts is given, in terms of the answers: unresolved, inputs missing, cleanly rejected, nobody to ask |
| `Settlement.ReleasedIffRefused` | src/treasury.ts:1294-1349 | the inputs stay spendable iff every relay asked refused the transaction itself, or there was nobody to ask at first or on the retry |
| `Settlement.LiveIsLocked` | src/treasury.ts:1294-1349 | when rejections are honest, a transaction some relay may hold always has its inputs locked |
| `Runs.RunGuards` | src/treasury.ts:562-709 | in every run each consumed coin is guarded at least as late as its transaction, or has aged past the release rules |
| `Runs.NoDoubleSpend` | src/treasury.ts:562-709 | two kept transactions share an input only if built more than SPENT_SETTLED_MS apart, and more than SPENT_STALE_MS apart if every view in between still listed the coin |
| `Runs.LiveSpendsApart` | src/treasury.ts:1294-1349 | both spacings hold for transactions the network may really hold |
| `Runs.LatePhantomIff` | src/treasury.ts:1642-1661 | after a run without an unsafe late recording, one more lets a spent, unlisted coin into some later view iff it re-adds an output that is consumed and has lost its guard |
| `Runs.NoPhantomsIff` | src/treasury.ts:562-642 | at no point of a run can any view show a spent, unlisted coin iff every late recording re-adds only outputs that are unspent or guarded |
| `Runs.PhantomRun` | src/treasury.ts:1642-1661 | a run from the start that ends in such a coin |
| `Runs.RunMasks` | src/treasury.ts:562-709 | in runs without an unsafe late recording, a consumed output is never pending without its guard |
| `Runs.NoPhantoms` | src/treasury.ts:562-642 | a coin a kept transaction consumed is in a later view only if the explorer itself lists it |
| `Runs.LatePhantom` | src/treasury.ts:1642-1661 | re-adding a consumed output without its guard shows it in the next view of any listing that lacks it |
| `Runs.SpendConserves` | src/treasury.ts:920-921 | in every reachable state an accepted spend lowers the spendable sum by external outputs plus fee |
| `Runs.SettledView` | src/treasury.ts:1294-1349 | what each verdict does to the coins in view: all of the transaction applied, its inputs gone, or nothing |
| `Coinbase.CoinbaseChecks.ImmatureTxids` | src/treasury.ts:648-673 | looks up at most six unknown young transactions, keeps every verdict, lets unclassified ones sit out |
| `Coinbase.LookupsBounded` | src/treasury.ts:648-661 | at most six lookups, all of unknown young transactions; fewer only when there are no more |
| `Coinbase.LearnIff` | src/treasury.ts:662-673 | an answered lookup is remembered unless a verdict is stored already, and nothing else is |
| `Coinbase.YoungIff` | src/treasury.ts:644-657 | a coin is young while unconfirmed and until the tip is 100 blocks above its height |
| `Coinbase.CoinbaseChecks.RecordOwn` | src/treasury.ts:675-682 | a stored verdict is never overwritten |
| `Coinbase.CoinbasesSitOut` | src/treasury.ts:644-673 | with truthful lookups no young coinbase reaches selection; what is known to be none never sits out, anything else only while young |
| `Windows.RetryOpens` | src/treasury.ts:1103-1107 | after the hinted wait and no further hit, a limit that was not exceeded admits again |
| `Windows.RetryTight` | src/treasury.ts:809-813 | a second before the hinted wait no hit has left the window yet |
| `Windows.HintOpensIff` | src/treasury.ts:799-813 | at the moment the hint names, a limit is open iff the hits that have left the window outnumber the excess |
| `Windows.PruneInvisible` | src/treasury.ts:520-534 | pruning by the window a limit looks back over changes none of its queries |
| `Windows.PacedWindow` | src/treasury.ts:799-813 | hits admitted one by one below their ceilings never exceed, in any window, the ceiling of the last one admitted there |
| `Limits.PublicBooks.Check` | src/treasury.ts:754-830 | prunes, then answers replay, rate limit, budget or admit |
| `Limits.PublicBooks.Record` | src/treasury.ts:932-947 | adds the claim, the hit and the day's budget |
| `Limits.PrunedForgets` | src/treasury.ts:520-534 | which rows pruning forgets: exactly the hits older than an hour, claims older than seven days, budgets of earlier days |
| `Limits.DecideRefines` | src/treasury.ts:778-830 | tables that hold what the log implies give the decision the log gives |
| `Limits.TablesRefineLog` | src/treasury.ts:520-534 | after every run the pruned tables answer any later request exactly as the full unpruned history would, retry hint included |
| `Limits.AnswerIff` | src/treasury.ts:778-830 | in every run: replay iff the address or device was paid today, and with that payout; else limited iff the hour is full; else exhausted iff one more payout passes the budget; else admitted |
| `Limits.MidnightIsNext` | src/treasury.ts:818-827 | the budget's hint is the first whole second of the next day |
| `Limits.PublicLimitsHold` | src/treasury.ts:778-830 | budget rows equal `payoutSats` times the day's recorded payouts and never pass the budget; one payout per address and day |
| `Limits.IpHoursHold` | src/treasury.ts:799-813 | in any hour an IP has at most as many payouts as the ceiling of the last one accepted |
| `Limits.PublicRetryOpens` | src/treasury.ts:809-813 | in every run, the hint opens the limit when no hit of the hour was admitted under a higher ceiling |
| `Limits.PublicHintOpensIff` | src/treasury.ts:809-813 | in every run, the request is let past the limit at the hinted time iff the hits gone by then outnumber the excess over its ceiling |
| `Limits.PublicHintTooShort` | src/treasury.ts:809-813 | after two hard payouts a soft request is limited, and limited again when its hint says to come back |
| `Accounts.AccountTables.ChargeKey` | src/treasury.ts:1004-1028 | one audit row, and the key's own totals |
| `Accounts.AccountTables.Redeem` | src/accounts.ts:348-366 | one redemption row, and the code's counter |
| `Accounts.AccountTables.Edit` | src/accounts.ts:290-312 | only the patched terms change; the counter never does |
| `Accounts.EditTable` | src/accounts.ts:290-312 | field by field: a term the edit names takes its new value, every other term, count and code stays |
| `Accounts.AccountTables.AllFree` | src/accounts.ts:227-232 | true iff no code of the batch exists |
| `Accounts.AccountTables.Create` | src/accounts.ts:222-257 | every code of a batch is inserted, or none when one is taken; a repeated code stops the loop at the repeat |
| `Accounts.StepKeys` | src/treasury.ts:1055-1110 | every step, edits during a broadcast included, keeps key totals, pacing and the clearance in flight |
| `Accounts.AuthorizedIff` | src/treasury.ts:1055-1110 | a key payout is authorized, and for which amount, iff keys are on, the key exists, is neither revoked nor expired, the amount rule holds and the day has room; each refusal exactly when it applies |
| `Accounts.RedeemableIff` | src/accounts.ts:323-346 | a code is redeemable, used or invalid exactly by its existence, switch, expiry, cap and the address's earlier redemption |
| `Accounts.StartsIff` | src/treasury.ts:765-777 | a payout goes in flight iff its check allows it, for the checked amount, and nothing else changes |
| `Accounts.RevokedIsFinal` | src/treasury.ts:1055-1200 | in every run, once a key is revoked no payout of it starts |
| `Accounts.KeyLimitsHold` | src/treasury.ts:1055-1110 | in every run key totals and last use are those of the log, and any rolling 24 hours hold at most `per_day` payouts of a key |
| `Accounts.KeyRetryOpens` | src/treasury.ts:1094-1108 | after `retryAfter` with no other payout on the key, its limit admits it |
| `Accounts.StepCodes` | src/accounts.ts:290-366 | every step keeps counters, uniqueness and the clearance in flight |
| `Accounts.CodeLimitsHold` | src/accounts.ts:318-366 | each (code, address) appears once; a code's counter equals its rows and never exceeds its largest cap ever |
| `Accounts.CapsHoldIff` | src/accounts.ts:290-366 | at no point of a run is a code over its cap, now or once the payout in flight is charged, iff every edit that sets a cap leaves room for the redemptions so far and for that payout |
| `Accounts.PlainEditBelowCount` | src/accounts.ts:290-312 | a run in which a plain edit, with no payout in flight, sets the cap below the count |
| `Accounts.CapMayShrinkBelowCount` | src/accounts.ts:290-312 | a run in which an edit to the count itself, during a broadcast, ends below it |
| `Vouchers.Inventory.Examine` | src/treasury.ts:1510-1551 | one candidate is left, claimed, failed or issued to the device |
| `Vouchers.QueryFinds` | src/treasury.ts:1494-1503 | the query lists the first available vouchers in order, and nothing only when there is none |
| `Vouchers.Inventory.Pass` | src/treasury.ts:1505-1552 | one pass examines exactly the rows found, each once |
| `Vouchers.Inventory.IssueBatch` | src/treasury.ts:1490-1553 | the loop ends; rows before a cut are examined once and no others; it stops short only with the explorer down or nothing left |
| `Vouchers.BatchTable` | src/treasury.ts:1505-1552 | row by row: a candidate before the cut ends issued, claimed, failed or unchanged exactly as its answer says, and no other row changes |
| `Vouchers.BatchFills` | src/treasury.ts:1490-1553 | with the explorer up a batch holds what was asked for, or every voucher that opens if those are fewer |
| `VoucherRuns.MaintainRows` | src/treasury.ts:1594-1679 | both loops, row by row in place, move each row by its own stage's rule only |
| `VoucherRuns.MaintainTable` | src/treasury.ts:1594-1679 | row by row: a due reservation is freed iff Platform says it is unclaimed and retired iff it says claimed; a waiting or unresolved voucher moves exactly as ChainLock and settlement answer; nothing else changes |
| `VoucherRuns.VouchersExclusive` | src/treasury.ts:1417-1654 | in every run vouchers are available, issued or claimed only after a ChainLock, and two issuances of one voucher are at least `ttlMs` apart |
| `VoucherRuns.StepKeepsEnds` | src/treasury.ts:1417-1785 | no step drops a row or leaves `claimed` or `failed` |
| `VoucherRuns.EndsAreFinal` | src/treasury.ts:1417-1785 | `claimed` and `failed` last for the rest of any run |
| `VoucherRuns.BatchDistinct` | src/treasury.ts:1490-1553 | a batch holds distinct vouchers, each available before, answered as open, and reserved to the caller after |
| `VoucherRuns.IssuanceWindows` | src/treasury.ts:1428-1481 | the pruned hits gate every request as the full log would, and accepted batches of one IP or device are a window apart |
| `VoucherRuns.GateIff` | src/treasury.ts:1432-1481 | replay iff the device holds a live reservation, rate limited iff its IP or device has a hit in the window, neither with the window off |
| `VoucherRuns.BatchRetryOpens` | src/treasury.ts:1455-1480 | in every run, a request that comes back after `retryAfter` with no other batch in between is not rate limited |
| `VoucherRuns.BatchesBounded` | src/treasury.ts:1422-1572 | in every run the vouchers issued are at most `maxPerRequest`, or one, for each accepted batch |
| `VoucherRuns.IssueFills` | src/treasury.ts:1422-1553 | the same over the state: between one and `maxPerRequest` vouchers as asked, or all that open |
| `VoucherRuns.IssueCharges` | src/treasury.ts:1555-1572 | IP and device are charged once, and exactly when the batch hands out a voucher |
| `Vouchers.Inventory.Refill` | src/treasury.ts:1681-1694 | mints exactly what the pipeline lacks, stopping at the first mint that fails, and never past `inventoryTarget` |
| `Vouchers.PipelineIs` | src/treasury.ts:1681-1683 | the pipeline is every voucher of the amount that is not reserved, spent or failed |
| `Vouchers.MintTable` | src/treasury.ts:1726-1776 | what a mint stores, by its settlement; nothing only when nothing was built |
| `Vouchers.FailedMintIff` | src/treasury.ts:1755-1776 | a minted voucher fails iff somebody was asked, no configured relay vouched and no answer left the matter open |
| `Tip.TipHeight` | src/chain/index.ts:167-191 | the loops compute the tip and bench exactly the evonodes far above the median |
| `Tip.MedianWithin` | src/chain/index.ts:177-181 | the lower median is within a bound iff at most half of the heights, rounded down, exceed it |
| `Tip.TipCoversConfigured` | src/chain/index.ts:167-191 | the tip is never below a configured height, and absent iff nobody answered |
| `Tip.TipWithinIff` | src/chain/index.ts:167-191 | with two or more evonodes the tip is within a bound iff every configured height is and at most half of the evonodes exceed it: a minority lifts nothing |
| `Tip.LoneEvonodeCapped` | src/chain/index.ts:182-189 | a lone evonode leads the best configured height by at most MAX_LAG_BLOCKS |
| `Tip.LoneTipIs` | src/chain/index.ts:182-190 | the tip of a lone evonode, or of none, exactly |
| `Tip.BestStaysEligible` | src/chain/index.ts:167-260 | the best configured source looks stale iff more than half of two or more evonodes claim to be far ahead of it |
| `Tip.BenchedIff` | src/chain/index.ts:177-181 | an evonode is benched iff two or more answered and at most half of the heights exceed its own less eleven |
| `Tip.GetUtxos` | src/chain/index.ts:233-282 | sources are asked in turn with one retry for a quick failure; a listing returned comes from a provider within the lag allowance of the tip; at most one request more than sources, failure only after all failed |
| `Tip.WalkIff` | src/chain/index.ts:262-281 | the listing is the first that answers, where a source is asked again iff it is the first quick failure; all failed iff none answers |
| `Dapi.WriteVarint` | src/chain/dapi.ts:200-208 | the loop writes the base-128 form |
| `Dapi.ReadVarint` | src/chain/dapi.ts:213-224 | the accumulating loop reads the number at the cursor, or notices the end |
| `Dapi.NumberInverts` | src/chain/dapi.ts:200-224 | reading a written number gives it back, whatever follows |
| `Dapi.Decode` | src/chain/dapi.ts:210-254 | the loop keeps the first value of each field of the parse, or the parse's error |
| `Dapi.DecodeInverts` | src/chain/dapi.ts:210-254 | any sequence of fields decodes to the first value of each number, with fixed-width fields passed over |
| `Dapi.CutRefused` | src/chain/dapi.ts:218-235 | a message cut inside a number or a length-delimited field is refused, and with which error |
| `Dapi.WireRefused` | src/chain/dapi.ts:232-250 | a field of any other wire type is refused, naming the type |
| `Dapi.FixedCut` | src/chain/dapi.ts:240-248 | a cut fixed-width field at the end is passed over, not refused |
| `Dapi.Field` | src/chain/dapi.ts:194-198 | writes one length-delimited field |
| `Dapi.ShortField` | src/chain/dapi.ts:194-208 | the very bytes of a short field and of a two-byte number |
| `Dapi.FrameRequest` | src/chain/dapi.ts:187-192 | fills the buffer with flag, 32-bit length and message |
| `Dapi.ShortFrame` | src/chain/dapi.ts:187-192 | the very bytes of a short frame: flag 0 and a big-endian length |
| `Dapi.ReadFrames` | src/chain/dapi.ts:77-86 | first message and all trailer blocks of the frames, or a truncation |
| `Dapi.FramesRead` | src/chain/dapi.ts:77-86 | the first frame below 0x80 is the message, every frame from 0x80 on a trailer, in order |
| `Dapi.FramesInvert` | src/chain/dapi.ts:77-86 | a body parses to some frames iff it is those frames end to end |
| `Dapi.RequestInverts` | src/chain/dapi.ts:187-192 | a framed request reads back as its message iff its length fits 32 bits |
| `Socket.IndexOf` | src/chain/socket.ts:76-82 | the first occurrence at or after the start, or -1 iff there is none, with no read out of range |
| `Socket.Concat` | src/chain/socket.ts:84-92 | the buffer is the parts joined in order |
| `Socket.Dechunk` | src/chain/socket.ts:149-168 | the cursor strictly advances and the loop computes the parse of the body |
| `Socket.SizeReads` | src/chain/socket.ts:158-160 | a size in either case, padded or with an extension, is read for its value |
| `Socket.NumeralReads` | src/chain/socket.ts:160 | every number's hexadecimal numeral reads back as it |
| `Socket.CaseFree` | src/chain/socket.ts:158-160 | lower case digits read as upper case ones |
| `Socket.BodyIff` | src/chain/socket.ts:149-168 | a body decodes iff it is chunks whose lines announce their data, a zero-size line, and anything |
| `Socket.DechunkInverts` | src/chain/socket.ts:149-168 | every chunked body as section 7.1 of RFC 9112 writes it, blanks, extensions and leading zeros on any line included, decodes to its data joined in order |
| `Socket.CutIsTruncated` | src/chain/socket.ts:149-168 | a body cut before the end of its closing line is refused as truncated |
| `Cap.DigestHasPrefix` | src/cap.ts:160-165 | rendering only the bytes a target can reach decides the prefix of the full hexadecimal digest |
| `Cap.TimingSafeEqual` | src/cap.ts:97-102 | true iff the texts are equal |
| `Cap.HexInverts` | src/cap.ts:82-94 | bytes survive rendering and reading back |
| `Cap.MintChallenge` | src/cap.ts:191-219 | the filled buffer is sealed as the token |
| `Cap.ParseToken` | src/cap.ts:230-254 | checks shape and tag, then reads the 48-bit expiry digit by digit |
| `Cap.ParseIff` | src/cap.ts:230-254 | a token parses iff it is the seal of some payload, and then to what that payload commits to |
| `Cap.MintParses` | src/cap.ts:191-254 | a minted token reads back as expiry and shape iff expiry is below 2^48, c and s are in 1..256 and d is a byte |
| `Cap.VerifyCapToken` | src/cap.ts:338-361 | the checks compute `CapTokenCheck` |
| `Cap.HonouredIff` | src/cap.ts:338-361 | a captcha token is honoured iff it derives from a challenge sealed here and its grace has not run out |
| `Cap.NotOursIff` | src/cap.ts:338-358 | a token is not ours iff no challenge sealed here derives it; late ones that are ours are expired |
| `Cap.DerivedVerifies` | src/cap.ts:269-361 | a derived token verifies, for the shape of its challenge, until the grace ends |
| `Cap.VerifySolutions` | src/cap.ts:284-324 | the loop computes `RedeemResult`, first failure first |
| `Cap.RedeemedIff` | src/cap.ts:284-324 | solutions are redeemed iff the challenge is open, there is one nonce per part, and each solves its part |
| `Cap.RefusedIff` | src/cap.ts:284-302 | which refusal is given: bad token, expired challenge, bad solutions |
| `Cap.UnsolvedIs` | src/cap.ts:304-316 | the first unsolved part decides the refusal: no valid nonce, a rejected solution, or a crash when its target is longer than any digest |
| `Cap.DecimalReads` | src/cap.ts:143-170 | the decimal part number in the seed reads back, so parts have seeds of their own |
| `Cap.RedeemedVerifies` | src/cap.ts:284-361 | the token and expiry a redeem hands out: the challenge's token extended, its expiry and ten minutes, verifying until then for the very shape that was solved |
| `Cap.UsedCaps.Consume` | src/treasury.ts:733-748 | expired rows go, then the token is refused iff it is still there |
| `Cap.AcceptedIff` | src/treasury.ts:733-748 | over every run a token is accepted iff it is new or presented past its own expiry |
| `Cap.SingleUse` | src/treasury.ts:733-748 | consumed no later than it expires, a token is never accepted a second time |
| `Cap.LateReuse` | src/treasury.ts:733-748 | consumed late, the same token is accepted twice |

## Left out

- Signing, hashing, AES-GCM, WIF and address decoding, BIP69 ordering of inputs and outputs, and the dashtx library: `draftSingleOutput` is an arbitrary draft of one recipient output and at most one change output, and DashTx.LEGACY_DUST is not part of this model.
- The keyed hash, SHA-256 and the captcha PRNG are arbitrary functions; unforgeability is not claimed, only what a token's acceptance rests on.
- The language's own `sort` is modelled by a stable insertion sort.
- HTTP routing, the portal, OAuth, cookies, CORS and the public pages; provider clients, sockets, timeouts and evonode discovery: only their answers enter.
- Error-text classification: relay answers come already classified.
- SQL text and migrations: tables are maps and sequences; `pending` rows are read in insertion order, and a listing names each outpoint once.
- Numbers are unbounded; sums beyond 2^53 and varints beyond 2^53 lose precision in the original.
- Config parsing: constants are taken in the ranges the config enforces, `maxPayoutInputs` at least 1 and a per-day limit at least 1 (src/portal.ts:291). A pool coin size of 0, which the config accepts, divides by zero at src/treasury.ts:1987; the model takes at least 1.
- `Settlement.LiveIsLocked`: assumes that the two broadcasts of one settlement both have someone to ask (`Configured`); the fixed relays do not change in between and the evonode directory never samples empty. The error thrown with nobody to ask is a verdict of its own here.
- `Runs.NoPhantoms`: covers late recordings only when they meet the exact condition of `Runs.NoPhantomsIff`.
- `Runs.NoDoubleSpend`: a transaction counts as kept by the settlement it was built with. One whose first broadcast found nobody to ask locks nothing until a later retry records it; such retries are allowed steps, and their spacing is not claimed.
- `Accounts.AccountTables.Create`: whether the platform rolls back the rows written before a repeated code's error is not modelled.
- `Cap.SingleUse`: needs consumption no later than the token's expiry, as `Cap.AcceptedIff` shows it must.
- `Limits.PublicLimitsHold`: speaks of recorded payouts; an unresolved public broadcast is by design charged to nothing.
- `Tip.TipHeight`: benching is the set of provider names, without its time limit.
- `Socket.SizeReads`: the header line is taken as bytes, so only ASCII whitespace is trimmed.
- `Maintenance.Demands.MergeDemand`: the age limit of demand rows is left out, as is the one-day limit of `Coinbase.CoinbaseChecks.ImmatureTxids` verdicts and of `used_cap` rows pruned elsewhere.
- The public reserve check before key and code payouts, dry runs of payouts, the live-key cap of self-served keys, voucher encryption and the backfill of voucher amounts: one comparison or plumbing each.
- The gRPC status line and trailers' text, response heads, `isCoinbase`'s byte test and `readResponse`'s size limits.
