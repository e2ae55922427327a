# A verified model of the sandbox: pools, backruns, builder and bot

The project models four parts of the repository and proves what they promise.

- **The chain** (`Powers`, `Evm`, `Quote`, `Reserves`, `Market`, `Token`, `Swaps`, `Dex`,
  `Arbitrage`, `Backrun`, `World`, `Solvency`, `Messages`, `Growth`, `Holdings`, `Executor`, `OffChain`).
  `Token.SandboxERC20`, `Dex.SandboxDex` and `Backrun.SandboxBackrun` are the three
  contracts as classes that change their storage in place and roll it back when a
  call reverts. Each method is proved equal to a storage transformer
  (`Token.Ledger`, the functions of `Swaps` and `Arbitrage`), and `World.World` runs
  those same transformers: any number of tokens and pools, one executor, any
  sequence of calls from any accounts. The theorems are about those transformers
  and runs. Checked 256-bit arithmetic, floor division, the infinite allowance and
  reverts after two completed swaps are all explicit.
- **The builder** (`Mempool`, `Broadcast`, `Bundle`, `Builder`). The mempool, its
  record objects and the broadcaster are classes; `Builder` interleaves
  submissions, single sends, the end of a broadcast, connects, disconnects and
  bundle minings as atomic steps between awaits.
- **The bot** (`Queue`, `Monitor`, `Reconnect`, `Backoff`, `Traffic`, `GivingUp`). `Queue.Queue` is the
  queue object; `Monitor` runs it under any number of threads with lock, critical
  section, sleep, spurious wakeup, `notify_one` and `notify_all` as separate steps.
  `Reconnect.WsSource` is the reconnecting websocket source, `Backoff` and `Traffic` its runs and
  `GivingUp` those in which everything fails.
- **Two text functions** (`Decimal`, `Endpoint`): the exact token amount printer
  and the websocket URL parser, each with its inverse theorem.

## What came out

- **No free lunch.** Any number of pools at one price: after any run of the whole
  deployment that trades on one of them, their combined A and combined B are not
  both back to, or below, where they started (`Growth.NoFreeLunch`), and unless a
  token was minted everyone else together has lost A or B (`Holdings.EveryoneElsePays`).
- **Solvency.** In every reachable world supplies are sums of balances, every pool
  holds what it has recorded and has granted nobody an allowance. A swap goes through
  exactly when the trader's own conditions hold and the quote fits 256 bits, which
  supplies up to 2^123 guarantee (`Solvency.ReachableSwap`).
- **A backrun needs a price gap** wider than both fees even with a minimum profit
  of zero, leaves the executor's A unchanged and its approvals at zero, and raises
  its B by exactly what the sale brought beyond the stake (`Executor.BackrunPays`,
  `Executor.RunAndExecutor`). An infinite approval never arises on that path: the
  swap's own `amountIn * 997` would overflow first (`Swaps.SwapEffect`).
- **The off-chain calculation and the pool part in two ways.** The calculation
  accepts a victim swap whose floored output is zero, which the pool reverts, and it
  computes in unbounded integers where the pool checks 256 bits.
  `OffChain.ZeroOutputIsPredicted` and `OffChain.OverflowIsPredicted` are concrete
  inputs. `OffChain.BundleRealisesPrediction` has the exact condition, on the inputs:
  the bundle goes through if and only if `997*x*(b-1) >= 1000*a` for the victim's `x`
  and the reserves `a` and `b` it meets, and none of the three quotes overflows; then
  every prediction comes true. The scenario itself meets neither case, since
  scenarios/scenario_support.py:317 insists on equal reserves of 1000 tokens and its
  amounts are constants.

- **Eleven dials are not certain.** A source that only fails gives up by itself, but a
  stop, restart or failure cancels operations whose handlers still run later and fail
  the source again. Each such late failure that replaces an armed delay costs one dial.
  Exactly eleven dials follow every start with a clear counter if and only if no
  cancelled operation is still to complete (`GivingUp.ElevenDialsExactlyWhen`);
  `GivingUp.StopWhileConnecting` is an input on which it fails.

## Model

The first rows are the main results; the others follow the modules.

| member | source | states |
|---|---|---|
| Growth.NoFreeLunch | blockchain/src/dexes/SandboxDex.sol:37-76 | from pools at one price, a run of the whole deployment that trades on one of them never ends with their combined recorded A and combined recorded B both no larger |
| Holdings.EveryoneElsePays | blockchain/src/dexes/SandboxDex.sol:37-76 | from pools at one price, a run that trades on one of them and mints neither token leaves all accounts other than these pools together with less A or less B |
| Solvency.RunKeepsSound | blockchain/src/tokens/SandboxERC20.sol:31-70 | in every world reachable by messages from outside: supply equals the sum of balances, pools hold their recorded reserves, pools have granted no allowance, reserves are both zero or both positive, and the contracts are those deployed |
| Solvency.ReachableSwap | blockchain/src/dexes/SandboxDex.sol:78-119 | in every world reachable from a fresh deployment a swap goes through if and only if the quote is computable and the trader's conditions hold; with supplies up to 2^123 a funded one is always computable; when it reverts the whole world is unchanged |
| Reserves.SplittingNeverPays | blockchain/src/dexes/SandboxDex.sol:50-89 | any list of inputs swapped one after another yields in sum at most the quote for their total from the starting reserves |
| Reserves.RoundTripLoses | blockchain/src/dexes/SandboxDex.sol:50-76 | swapping there and back returns strictly less than was put in, in either direction |
| Executor.BackrunPays | blockchain/src/backrun/SandboxBackrun.sol:62-73 | a successful backrun leaves the executor's A unchanged, raises its B by exactly the sale minus the stake, at least the profit asked for, and implies the price gap |
| Executor.BackrunGoesThroughExactlyWhen | blockchain/src/backrun/SandboxBackrun.sol:40-76 | a backrun message succeeds if and only if sender, pools, tokens, stake, quotes (positive and without overflow), minimums and profit are all right |
| Executor.RunAndExecutor | blockchain/src/backrun/SandboxBackrun.sol:62-88 | over any run all allowances of the executor are zero and each balance is at least the initial one less what was withdrawn |
| Arbitrage.RouteAtMostClosedForm | blockchain/src/backrun/SandboxBackrun.sol:65-69 | the two nested floored quotes pay at most the single floored closed form ⌊997²·y·A1·B2 / (1000·A2·(1000·B1 + 997·y) + 997²·y·A1)⌋ |
| OffChain.BundleRealisesPrediction | scenarios/backrun/run.py:120-148 | when the calculation succeeds, both transactions of its bundle go through if and only if the victim's input is worth a unit of B and none of the three quotes overflows; then the victim gets the predicted output and the executor the predicted profit |
| Builder.SnapshotPlusStreamHasNoGap | services/block-builder/block_builder/app.py:54-78 | for a client subscribed before its snapshot and since: later records are above the boundary and addressed to it exactly once, and a record pending later is in the snapshot exactly when it is not above the boundary |
| Builder.StreamIsDelivered | services/block-builder/block_builder/ws.py:17-27 | the sends still under way are bounded in number, and when none is left every record above the client's boundary has been sent to it exactly once |
| Builder.MineMarksAllOrNothing | services/block-builder/block_builder/app.py:90-98 | a bundle call succeeds exactly when it parses and the chain answers; then every referenced record was pending and now has the hash, receipt, status and time that the reply has for its last item, and no other record changed; otherwise nothing changed |
| Monitor.RunKeepsInv | knight/src/common/queue.h:24-68 | after every interleaving of any number of threads, spurious wakeups included: accepted = popped followed by queued, at most the capacity queued, mutual exclusion, and no wakeup lost |
| Monitor.CallsDrain | knight/src/common/queue.h:24-68 | after any run the calls already made come to rest in a bounded number of steps; then every producer and closer has returned, and every consumer too if the queue is closed or not empty |
| Backoff.BackoffIsBounded | knight/src/network/ws_source.cpp:268-402 | from construction on, whatever happens, at most ten reconnects are scheduled between successful handshakes, with nondecreasing delays in 200 to 5000 ms, 31200 ms at most in all |
| GivingUp.GivesUpAfterElevenDials | knight/src/network/ws_source.cpp:64-402 | started with a clear counter, whatever happened before and with any number of cancelled operations still to fail late, a source that only fails rests in FAILED with no timer after at most 104 moves plus that number, having dialled eleven times less the late failures that replaced an armed delay |
| GivingUp.ElevenDialsExactlyWhen | knight/src/network/ws_source.cpp:64-402 | every such series makes exactly eleven dials if and only if no cancelled operation is still to complete |
| Endpoint.ParsesExactlySpellings | knight/src/common/config.h:157-186 | a text parses to an endpoint if and only if the endpoint is well formed and the text is one of its spellings |
| Decimal.PrintedAmountDecodes | scenarios/scenario_support.py:134-142 | the printed text decodes to exactly the amount, for every amount and every `decimals` |
| Quote.QuoteIsLargest | blockchain/src/dexes/SandboxDex.sol:78-89 | `getAmountOut` is the largest payment for which the fee-adjusted product of the reserves does not fall, and it is less than the reserve it is paid from |
| Quote.QuoteGrowsWithInput | blockchain/src/dexes/SandboxDex.sol:87-88 | paying in more never yields less, in spite of the floor |
| Quote.QuoteFallsAgainstTrader | blockchain/src/dexes/SandboxDex.sol:87-88 | a pool holding more of the input token or less of the output token never pays more |
| Quote.SplitPair | blockchain/src/dexes/SandboxDex.sol:50-62 | two swaps in a row, each floored on the reserves it finds, pay at most one swap of both inputs |
| Reserves.TradeGrowsProduct | blockchain/src/dexes/SandboxDex.sol:37-76 | every accepted swap or seeding strictly increases reserveA times reserveB and leaves both positive |
| Reserves.RunGrowsProduct | blockchain/src/dexes/SandboxDex.sol:37-76 | over any run the product never falls and rises once anything is accepted; reserves stay both zero or both positive |
| Reserves.NoRunDrainsAPool | blockchain/src/dexes/SandboxDex.sol:37-76 | no run with an accepted trade leaves both reserves no larger |
| Reserves.QuoteStability | scenarios/victim-swap/run.py:72-73 | after any list of swaps in the same direction a quote is at most what it was, after any list of opposite ones at least |
| Reserves.ProceedsAreTakenOut | blockchain/src/dexes/SandboxDex.sol:50-76 | what a list of swaps pays is what the pool's output reserve has fallen by, and when all are accepted their total is what its input reserve has risen by |
| Market.CombinedProductGrows | blockchain/src/dexes/SandboxDex.sol:37-76 | for any number of pools at one price the product of the combined reserves does not fall, and rises if any pool changed |
| Market.NothingForNothingAcrossPools | blockchain/src/dexes/SandboxDex.sol:37-76 | from one price no change of the pools leaves combined A and combined B both no larger |
| Token.TransferEffect | blockchain/src/tokens/SandboxERC20.sol:63-70 | exactly when a transfer succeeds, and the balance of every account after it, the sender and the recipient being possibly the same; supply is conserved and the credit cannot overflow |
| Token.TransferFromEffect | blockchain/src/tokens/SandboxERC20.sol:50-61 | exactly when `transferFrom` succeeds, every balance after it, and that only the spender's allowance falls, by the amount, unless it is infinite |
| Token.MintEffect | blockchain/src/tokens/SandboxERC20.sol:31-37 | only the minter can mint, to a real address and up to the largest word; one balance and the supply rise together and the balance is never what overflows |
| Token.ApproveEffect | blockchain/src/tokens/SandboxERC20.sol:39-43 | one allowance is replaced and nothing else changes |
| Token.MintFailsWith | blockchain/src/tokens/SandboxERC20.sol:31-35 | which requirement of a mint fails, in their order |
| Token.TransferFailsWith | blockchain/src/tokens/SandboxERC20.sol:63-68 | which requirement of a transfer fails, in their order |
| Token.TransferFromFailsWith | blockchain/src/tokens/SandboxERC20.sol:50-59 | which requirement of `transferFrom` fails, in their order |
| Token.SandboxERC20.constructor | blockchain/src/tokens/SandboxERC20.sol:23-29 | a deployed token has no supply, balances or allowances |
| Token.SandboxERC20.Mint | blockchain/src/tokens/SandboxERC20.sol:31-37 | the in-place mint ends in the storage and outcome of `Ledger.Mint`, or with storage unchanged when it reverts |
| Token.SandboxERC20.Approve | blockchain/src/tokens/SandboxERC20.sol:39-43 | the in-place approval is `Ledger.Approve` |
| Token.SandboxERC20.Transfer | blockchain/src/tokens/SandboxERC20.sol:45-48 | the in-place transfer is `Ledger.Transfer` from the caller, or no change |
| Token.SandboxERC20.TransferFrom | blockchain/src/tokens/SandboxERC20.sol:50-61 | the in-place version is `Ledger.TransferFrom`, or no change: the allowance already spent comes back when the transfer fails |
| Token.SandboxERC20.Move | blockchain/src/tokens/SandboxERC20.sol:63-70 | debit, then credit, equals `Ledger.Transfer`; a debit made is undone when the credit overflows |
| Swaps.CheckedQuote | blockchain/src/dexes/SandboxDex.sol:78-89 | the checked formula returns exactly when the inputs are positive and numerator and denominator fit 256 bits, and then it is the unbounded quote, below the output reserve |
| Swaps.SwapEffect | blockchain/src/dexes/SandboxDex.sol:50-76 | a successful swap makes exactly the reserve-level trade at the quoted price, moves exactly those amounts, respects the minimum and was covered by balance and allowance; the input is small enough that it is not the infinite allowance |
| Swaps.SeedEffect | blockchain/src/dexes/SandboxDex.sol:37-48 | a successful seeding makes the reserve-level seeding and moves exactly those amounts of both tokens |
| Swaps.SeedSucceedsExactlyWhen | blockchain/src/dexes/SandboxDex.sol:37-48 | a seeding by anyone but the pool succeeds if and only if both amounts are positive and covered by balances and allowances |
| Swaps.SwapSucceedsExactlyWhen | blockchain/src/dexes/SandboxDex.sol:78-119 | a swap succeeds if and only if input, reserves and quote are positive, numerator and denominator fit 256 bits, the quote meets the minimum, and balance and allowance cover the input |
| Swaps.SwapFailsWith | blockchain/src/dexes/SandboxDex.sol:78-119 | the error of every swap that fails, each with its exact condition |
| Swaps.SeedFailsWith | blockchain/src/dexes/SandboxDex.sol:37-45 | the error of every seeding that fails, each with its exact condition |
| Swaps.OrdinarySwap | blockchain/src/dexes/SandboxDex.sol:78-119 | with supplies up to 2^123 the same without the overflow condition, which then always holds |
| Dex.SandboxDex.constructor | blockchain/src/dexes/SandboxDex.sol:28-35 | a deployed pool has its two tokens and empty reserves |
| Dex.SandboxDex.SeedLiquidity | blockchain/src/dexes/SandboxDex.sol:37-48 | the in-place seeding is `Swaps.SeedLiquidity` on pool and both tokens, or leaves all three unchanged |
| Dex.SandboxDex.SwapExactAForB | blockchain/src/dexes/SandboxDex.sol:50-62 | the in-place swap is `Swaps.SwapExactAForB` on pool and both tokens, or leaves all three unchanged |
| Dex.SandboxDex.SwapExactBForA | blockchain/src/dexes/SandboxDex.sol:64-76 | the in-place swap is `Swaps.SwapExactBForA` on pool and both tokens, or leaves all three unchanged |
| Dex.SandboxDex.SwapExactIn | blockchain/src/dexes/SandboxDex.sol:103-119 | quote, the two requirements, pull, then push, on the tokens alone; a pull is undone when the push fails |
| Arbitrage.RouteNeedsPriceGap | blockchain/src/backrun/SandboxBackrun.sol:65-73 | a route that returns its stake implies 997²·A1·B2 > 1000²·A2·B1 |
| Arbitrage.ExecuteEffect | blockchain/src/backrun/SandboxBackrun.sol:62-73 | both pools' trades, every balance in both tokens and every allowance after a successful backrun, with all three minimums met |
| Arbitrage.ExecuteSucceedsExactlyWhen | blockchain/src/backrun/SandboxBackrun.sol:62-73 | the trading part succeeds if and only if stake, both trades, both quotes without overflow, both minimums and the profit hold on the reserves alone |
| Arbitrage.ExecuteFailsWith | blockchain/src/backrun/SandboxBackrun.sol:62-73 | a missing stake is refused first; once both swaps go through, a loss overflows and a profit below the minimum is refused |
| Arbitrage.GuardFailsWith | blockchain/src/backrun/SandboxBackrun.sol:47-51 | which of the first checks of a backrun fails, in their order |
| Arbitrage.SameTokensFailsWith | blockchain/src/backrun/SandboxBackrun.sol:59-60 | which token differs, A first |
| Arbitrage.OrdinaryBackrun | blockchain/src/backrun/SandboxBackrun.sol:62-73 | with supplies up to 2^123 the same without the overflow conditions |
| Arbitrage.BackrunNeedsPriceGap | blockchain/src/backrun/SandboxBackrun.sol:65-73 | a successful call implies the price gap whatever minimums it was given |
| Backrun.SandboxBackrun.constructor | blockchain/src/backrun/SandboxBackrun.sol:35-38 | the operator is fixed at deployment |
| Backrun.SandboxBackrun.ExecuteBackrun | blockchain/src/backrun/SandboxBackrun.sol:40-76 | the checks in their order, each with its own error and nothing touched, then the in-place trades equal `Arbitrage.Execute` on both pools and both tokens |
| Backrun.SandboxBackrun.Trade | blockchain/src/backrun/SandboxBackrun.sol:62-73 | approvals, both swaps and the late profit check in place; a failure at any of them restores both pools and both tokens |
| Backrun.SandboxBackrun.Buy | blockchain/src/backrun/SandboxBackrun.sol:65-66 | approve B and swap it in place, or leave the pool and both tokens unchanged |
| Backrun.SandboxBackrun.Sell | blockchain/src/backrun/SandboxBackrun.sol:68-69 | approve A and swap it in place, or leave the pool and both tokens unchanged |
| Backrun.SandboxBackrun.WithdrawToken | blockchain/src/backrun/SandboxBackrun.sol:78-84 | who may withdraw, each error, and that the token ends in the executor's transfer or unchanged |
| World.FreshIsSound | blockchain/src/dexes/SandboxDex.sol:28-35 | a fresh deployment satisfies the invariant |
| Messages.MintMessage | blockchain/src/tokens/SandboxERC20.sol:31-37 | a mint message goes through if and only if the minter sends it, the recipient is real and the supply fits; one balance and the supply rise and nothing else in the world changes |
| Messages.ApproveMessage | blockchain/src/tokens/SandboxERC20.sol:39-43 | an approve message sets exactly what its sender allows the spender and changes nothing else in the world |
| Messages.TransferMessage | blockchain/src/tokens/SandboxERC20.sol:45-48 | a transfer message moves its sender's own tokens, if covered, and changes nothing else in the world |
| Messages.TransferFromMessage | blockchain/src/tokens/SandboxERC20.sol:50-61 | a transferFrom message moves the owner's tokens, if covered and allowed to its sender, uses up that allowance and changes nothing else in the world |
| Messages.FundedSwapGoesThrough | scenarios/scenario_support.py:351-382 | minted, approved, then swapped: the swap goes through if and only if the pool as it stood before fills it and the quote meets the minimum |
| Solvency.StepKeepsSound | blockchain/src/dexes/SandboxDex.sol:37-76 | every message not sent by a pool keeps: supply equals the sum of balances, pools hold their recorded reserves, pools have granted no allowance, reserves are both zero or both positive |
| Growth.RunGrowsPool | blockchain/src/dexes/SandboxDex.sol:37-76 | over any run of the deployment a pool's reserves are unchanged or their product has strictly grown, and it has grown if the pool was traded on |
| Holdings.RunKeepsSurplus | blockchain/src/dexes/SandboxDex.sol:37-76 | what a pool holds beyond its recorded reserves never falls |
| Growth.RunRefinesReserves | blockchain/src/dexes/SandboxDex.sol:37-76 | a pool's reserves after any run of the deployment are those of a reserve-level run, so the laws of `Reserves` hold on the chain |
| Growth.EarlierMinimumStillPasses | scenarios/victim-swap/run.py:72-73 | after any run of the deployment whose trades on the pool are all opposite swaps, a swap with a minimum at or below the earlier quote goes through if and only if balance and allowance cover it and the quote does not overflow |
| Executor.WithdrawEffect | blockchain/src/backrun/SandboxBackrun.sol:78-84 | a withdrawal succeeds if and only if the operator asks for at most what the executor holds of a real token for a real recipient, and moves exactly that |
| Executor.WithdrawFailsWith | blockchain/src/backrun/SandboxBackrun.sol:78-81 | which requirement of a withdrawal fails, in their order |
| Executor.StepAndExecutor | blockchain/src/backrun/SandboxBackrun.sol:62-88 | every message leaves the executor's allowances at zero, and lowers one of its balances only by an operator's withdrawal of exactly the difference |
| OffChain.SameQuote | scenarios/scenario_support.py:209-216 | the Python quote is the pool's quote on every positive input |
| OffChain.QuotesExactlyPositive | scenarios/scenario_support.py:209-213 | the Python quote has a value if and only if amount and reserves are positive, and names the one at fault |
| OffChain.PredictsExactlyWhen | scenarios/backrun/run.py:120-145 | the calculation succeeds if and only if amounts and reserves are positive, the backrun buys something and its profit reaches the minimum |
| OffChain.SetupPrepares | scenarios/backrun/run.py:95-117 | minting to the victim, its approval and minting to the executor lead to the state the bundle theorem starts from |
| OffChain.PredictionIsQuotes | scenarios/backrun/run.py:120-148 | a prediction is the pools' own quotes on the successive reserves, each minimum is 99% of its output rounded down, and the predicted profit meets the minimum |
| OffChain.PaysOutExactly | blockchain/src/dexes/SandboxDex.sol:87-88 | a quote for A is positive if and only if 997·x·(b - 1) ≥ 1000·a |
| OffChain.VictimAsPredicted | scenarios/backrun/run.py:120-130 | the victim's swap goes through if and only if 997·x·(b - 1) ≥ 1000·a and its quote does not overflow, and then pays the predicted output and leaves the predicted reserves |
| OffChain.BackrunAsPredicted | scenarios/backrun/run.py:131-148 | after the victim the backrun goes through with the 99% minimums if and only if neither quote overflows, and then realises exactly the predicted profit, no A gained or lost |
| OffChain.ZeroOutputIsPredicted | scenarios/backrun/run.py:120-125 | an input the calculation accepts with a victim output of zero, at which the pool's swap reverts for any trader |
| OffChain.OverflowIsPredicted | scenarios/backrun/run.py:120-125 | an input the calculation accepts with a positive output, at which the pool's swap reverts with an overflow |
| Queue.Queue.constructor | knight/src/common/queue.h:70-74 | a new queue is empty and open |
| Queue.Queue.TryPush | knight/src/common/queue.h:24-42 | refuses when closed or full and changes nothing, otherwise appends |
| Queue.Queue.Pop | knight/src/common/queue.h:51-57 | nothing from an empty queue, otherwise the oldest item, which is removed |
| Queue.Queue.Close | knight/src/common/queue.h:60-68 | marks the queue closed and keeps its items |
| Monitor.StepConserves | knight/src/common/queue.h:24-57 | every atomic step keeps accepted = popped followed by queued, with at most the capacity queued |
| Monitor.StepExclusive | knight/src/common/queue.h:24-68 | only the holder of the mutex is in a critical section |
| Monitor.StepNoWakeupLost | knight/src/common/queue.h:40-67 | every step keeps: while a consumer sleeps there are at least as many pending notifies and awake consumers as queued items, and once closed a `notify_all` is still to come |
| Monitor.BodyEffect | knight/src/common/queue.h:24-68 | in every run: a push is accepted if and only if no closer has been there and fewer than the capacity are accepted but not popped; a pop takes the oldest accepted item not yet popped, returns without one if there is none and a closer has been there, and sleeps otherwise |
| Monitor.ClosedExactlyWhen | knight/src/common/queue.h:60-68 | the queue is closed if and only if a closer has been there, stays closed and then accepts nothing more |
| Monitor.SleepersHaveNothingToDo | knight/src/common/queue.h:44-57 | when nothing is in progress, a consumer still asleep has an empty and open queue before it |
| Monitor.NeverDeadlocks | knight/src/common/queue.h:24-68 | unless every thread has returned or sleeps, some thread can take a step of its call |
| Monitor.InternalRunsEnd | knight/src/common/queue.h:24-68 | without new calls and spurious wakeups the number of steps is bounded by the work left in the calls already made |
| Monitor.Drive | knight/src/common/queue.h:24-68 | any interleaving, its critical sections performed on the queue object: what the consumers received, followed by what the object holds, is what was accepted, and never more than the capacity is held |
| Reconnect.StopDisarms | knight/src/network/ws_source.cpp:78-90 | a stop drops a requested restart and the timer; unless stopped or stopping already it begins the close of an open stream, or is stopped at once |
| Reconnect.RestartStartsOver | knight/src/network/ws_source.cpp:92-109 | a restart from any state ends, once a pending close completes either way, in a new attempt with no timer armed |
| Reconnect.RestartDoes | knight/src/network/ws_source.cpp:92-109 | exactly what a restart publishes and begins in each state |
| Reconnect.WsSource.Start | knight/src/network/ws_source.cpp:64-76 | in place: the timer is cancelled; unless starting or running, STARTING is published and a resolve begun |
| Reconnect.WsSource.Stop | knight/src/network/ws_source.cpp:78-90 | the in-place stop is the specified one |
| Reconnect.WsSource.Restart | knight/src/network/ws_source.cpp:92-109 | the in-place restart is the specified one |
| Reconnect.WsSource.DoClose | knight/src/network/ws_source.cpp:158-175 | closes an open stream, or completes the close at once |
| Reconnect.WsSource.OnResolve | knight/src/network/ws_source.cpp:194-219 | a failure fails the source, otherwise a connect is begun |
| Reconnect.WsSource.OnConnect | knight/src/network/ws_source.cpp:221-254 | a failure fails the source, otherwise the TLS or the websocket handshake is begun |
| Reconnect.WsSource.OnTlsHandshake | knight/src/network/ws_source.cpp:256-266 | a failure fails the source, otherwise the websocket handshake is begun |
| Reconnect.WsSource.OnWsHandshake | knight/src/network/ws_source.cpp:268-280 | a success clears the counter, publishes RUNNING and begins reading |
| Reconnect.WsSource.OnRead | knight/src/network/ws_source.cpp:282-296 | a failure fails the source; reading goes on only while running |
| Reconnect.WsSource.OnClose | knight/src/network/ws_source.cpp:298-320 | STOPPED, or FAILED with a reconnect scheduled, and then the requested restart |
| Reconnect.WsSource.Fail | knight/src/network/ws_source.cpp:355-362 | FAILED is published before a reconnect is considered |
| Reconnect.WsSource.ScheduleReconnect | knight/src/network/ws_source.cpp:364-402 | at most ten times, with the doubling and capped delay, never when stopping or stopped |
| Reconnect.WsSource.OnTimer | knight/src/network/ws_source.cpp:391-401 | an expired timer starts the source unless it is stopping or running |
| Backoff.TenDelays | knight/src/network/ws_source.cpp:378-381 | the ten delays are 200, 400, 800, 1600, 3200 and five times 5000 ms, 31200 ms in all |
| Backoff.RunOnSchedule | knight/src/network/ws_source.cpp:268-402 | after any sequence of calls and handlers the delays armed since the last successful handshake are the first ones of the backoff, as many as the counter says |
| Traffic.OperationsFollow | knight/src/network/ws_source.cpp:194-296 | over every run: one connect for each resolve that succeeded, with TLS one TLS handshake for each connect and one websocket handshake for each TLS handshake, without it one websocket handshake for each connect, RUNNING for each successful websocket handshake and FAILED for each failure |
| Traffic.AlwaysReading | knight/src/network/ws_source.cpp:268-296 | over every run a running source has begun one read more than it has read messages since its last handshake |
| Traffic.ReadsOnlyWhileRunning | knight/src/network/ws_source.cpp:290-295 | a message read while not running begins no further read |
| Traffic.FailuresRetry | knight/src/network/ws_source.cpp:355-402 | every failure publishes FAILED and arms the next delay as long as one is left |
| Traffic.CancelledTimersDoNothing | knight/src/network/ws_source.cpp:391-394 | cancelled timer callbacks can be left out of any run |
| Traffic.ExpiryDials | knight/src/network/ws_source.cpp:391-401 | an expired timer begins an attempt exactly when the source is stopped or failed |
| GivingUp.SeriesProgresses | knight/src/network/ws_source.cpp:355-402 | while everything fails, every completion, expiry and late failure uses up a measure, and the dials are the counter's, less one for each late failure that replaced an armed delay |
| GivingUp.StopWhileConnecting | knight/src/network/ws_source.cpp:78-90 | a stop during the first resolve and a start after it: after two late failures no continuation dials eleven times |
| GivingUp.LostConnectionDialsTenTimes | knight/src/network/ws_source.cpp:282-402 | after a failed read a source that only fails rests in FAILED with no timer, having dialled ten times more less the late failures that replaced an armed delay |
| GivingUp.TenDialsExactlyWhen | knight/src/network/ws_source.cpp:282-402 | exactly ten more dials are certain if and only if no cancelled operation is still to complete |
| GivingUp.Complete | knight/src/network/ws_source.cpp:355-402 | every failing series can be completed |
| Backoff.RunningIsReady | knight/src/network/ws_source.cpp:268-280 | in every run the counter is on schedule, and clear whenever the source is running |
| Backoff.Drive | knight/src/network/ws_source.cpp:64-402 | the object's own calls and handlers, one by one, end in the state of the specified run |
| Backoff.Life | knight/src/network/ws_source.cpp:64-402 | a constructed object keeps within the backoff whatever is done to it |
| Decimal.PrintingIsInjective | scenarios/scenario_support.py:134-142 | no two amounts print alike |
| Decimal.NoShorterFraction | scenarios/scenario_support.py:141-142 | no text with fewer digits denotes the fraction |
| Decimal.FractionIsShortest | scenarios/scenario_support.py:134-142 | a fraction is printed exactly when there is one, within `decimals` digits, not ending in 0, and no shorter fraction denotes the amount |
| Endpoint.ValidPorts | knight/src/common/config.h:78-89 | the valid ports are exactly the nonempty digit strings with value 1 to 65535, leading zeros allowed |
| Endpoint.SchemesInAnyCase | knight/src/common/config.h:91-111 | the accepted schemes are ws and wss in any mixture of case, with ports 80 and 443, and no other |
| Endpoint.SpellingParses | knight/src/common/config.h:91-186 | every spelling of a well-formed endpoint (scheme in any case, default port left out or written, root target left out or written) parses to it |
| Endpoint.ParsedIsSpelled | knight/src/common/config.h:91-186 | what parses is well formed and the text was one of its spellings |
| Endpoint.RoundTrip | knight/src/common/config.h:157-186 | printing a parsed endpoint as scheme://host:port plus target and parsing again gives the same endpoint |
| Endpoint.DefaultsApply | knight/src/common/config.h:91-141 | without port and target, port 80 or 443 (section 3 of RFC 6455) and the root target apply |
| Mempool.SnapshotIsPending | services/block-builder/block_builder/mempool.py:79-88 | a snapshot holds the pending records and no others, none numbered above its boundary |
| Mempool.SnapshotIsOrdered | services/block-builder/block_builder/mempool.py:79-88 | a snapshot lists its records in ascending number, each once |
| Mempool.AddKeepsNumbered | services/block-builder/block_builder/mempool.py:42-55 | adding under a fresh id makes a pending record with what was submitted and the next number, and keeps the numbering and every older record |
| Mempool.MarkKeepsNumbered | services/block-builder/block_builder/mempool.py:61-77 | marking succeeds if and only if the id is known, sets that record's four result fields, and keeps its identity, the numbering and every other record |
| Mempool.MempoolRecord.constructor | services/block-builder/block_builder/mempool.py:12-33 | a new record is pending and has no result |
| Mempool.Mempool.constructor | services/block-builder/block_builder/mempool.py:37-40 | a new mempool is empty |
| Mempool.Mempool.AddTransaction | services/block-builder/block_builder/mempool.py:42-55 | a new record object under the next number; every other record object keeps its content |
| Mempool.Mempool.GetTransaction | services/block-builder/block_builder/mempool.py:57-59 | the record with this id, or nothing exactly when there is none |
| Mempool.Mempool.MarkMined | services/block-builder/block_builder/mempool.py:61-77 | overwrites the four result fields of one record object in place and changes no other, or reports an unknown id |
| Mempool.Mempool.PendingSnapshot | services/block-builder/block_builder/mempool.py:79-88 | the loop collects exactly the specified snapshot |
| Bundle.ParsedArePending | services/block-builder/block_builder/bundle.py:17-34 | every record a parsed bundle refers to exists and is pending |
| Bundle.ParsesExactlyWhen | services/block-builder/block_builder/bundle.py:42-52 | a bundle parses if and only if it is a nonempty list of acceptable items, and has one item for each, in order, with the record's or its own transaction |
| Bundle.ItemParsesExactlyWhen | services/block-builder/block_builder/bundle.py:17-34 | when an item parses, what it stands for, and the error of each item that does not |
| Bundle.SubmitFailsWith | services/block-builder/block_builder/app.py:90-98 | a bundle call blames the chain if and only if the bundle parses and the chain does not answer, and otherwise what is wrong with the bundle |
| Bundle.MarkingIsAligned | services/block-builder/block_builder/bundle.py:71-78 | after marking, each record carries the result of its own item, the last one if repeated, or is untouched |
| Bundle.ResultsAreFinal | services/block-builder/block_builder/bundle.py:82-126 | each result has its item's id and the chain's own hash and receipt; its status is included if and only if the receipt says 0x1, missing if and only if there is none, and never pending; the bundle is included if and only if every receipt says 0x1 |
| Bundle.MineBundle | services/block-builder/block_builder/bundle.py:68-80 | the marking loop over record objects ends in the specified mempool, stops with an error at the first record the mempool does not know, and changes nothing when the chain fails |
| Broadcast.PendingTransactionBroadcaster.Connect | services/block-builder/block_builder/ws.py:10-12 | adds the socket |
| Broadcast.PendingTransactionBroadcaster.Disconnect | services/block-builder/block_builder/ws.py:14-15 | removes the socket if it is there |
| Broadcast.PendingTransactionBroadcaster.Broadcast | services/block-builder/block_builder/ws.py:17-27 | run without interference, sends to every subscriber exactly once and drops exactly those whose send failed |
| Broadcast.PendingTransactionBroadcaster.Drop | services/block-builder/block_builder/ws.py:26-27 | the sockets whose send failed leave the subscribers, and no others |
| Builder.StepSettles | services/block-builder/block_builder/app.py:54-98 | every step keeps the numbering; records change only while mining and never after leaving pending |
| Builder.StepKeepsInv | services/block-builder/block_builder/app.py:54-64 | every step keeps one announcement for each record and one send, made or to be made, for each captured subscriber |
| Builder.SubscribedExactlyWhen | services/block-builder/block_builder/ws.py:10-27 | over every run a socket is subscribed if and only if it has connected and since then neither disconnected nor seen a broadcast end in which a send to it failed |
| Builder.StaysSubscribedWhen | services/block-builder/block_builder/ws.py:17-27 | a subscribed client stays so as long as it does not disconnect and no send to it fails, nor has failed in a broadcast under way |
| Builder.BrokenExactlyWhen | services/block-builder/block_builder/ws.py:18-24 | a broadcast collects exactly the sockets to which a send of it has failed |
| Builder.RecordsAsSubmitted | services/block-builder/block_builder/app.py:54-65 | over every run each record carries the transaction and the time of the submission that made it, and the number of submissions up to it |
| Builder.SubmittedIsRecorded | services/block-builder/block_builder/app.py:54-65 | every submission of a run is in the mempool |
| Builder.RunKeepsInv | services/block-builder/block_builder/app.py:54-98 | after every interleaving records are numbered 1 to lastSeqNum in insertion order, each announced once to the captured subscribers; each record keeps its identity and leaves pending at most once, after which it never changes |
| Builder.NothingLeftToSend | services/block-builder/block_builder/ws.py:17-27 | when no broadcast has a step left, every record has been sent once to each subscriber captured for it and to nobody else |
| Builder.Perform | services/block-builder/block_builder/app.py:54-98 | each step on the mempool and broadcaster objects does what the machine does |
| Builder.Drive | services/block-builder/block_builder/app.py:54-98 | any interleaving on the objects leaves them in the machine's state, where its invariants hold |

## How to read the contracts

A failing `require`, a checked operation that would overflow and a call to an
address without code are values of `Evm.Error`. `Committed` turns a reverted call
into the storage it started from. `Fits` says that no
intermediate value of the pricing formula overflows, `Fills` that the pool also takes
the trade. `Traded`, `Moved`, `UsedAllowance`, `Routed` and
`UsedUp` are the effects of swaps, seedings and backruns on every account and every
allowance at once; `World.Sound` is the invariant of the deployment. Messages come
`FromOutside`: pools and the executor act only when called.

`Reconnect` keeps a log of published states, started operations and armed timers.
A handler may run in any state, since cancelled operations still complete; this is
why `Backoff.BackoffIsBounded` quantifies over arbitrary sequences of handlers.

## Left out

- Events, token names, symbols and decimals, ETH balances, gas and nonces: they do not touch the arithmetic.
- Contracts other than these three behind the pool and token addresses given to a pool or to the executor: no callbacks, and pools and the executor never send messages themselves.
- Zero-address checks of the contract constructors are preconditions; two tokens of a pool are different objects, and one address names one contract.
- The pool's view functions `getAmountOutAForB`, `getAmountOutBForA` and `getReserves`: reads of what is modelled.
- Broadcast.PendingTransactionBroadcaster.Broadcast: the object's loop runs without interference; `Builder` has every send as a step of its own, with connects, disconnects and other broadcasts between.
- OffChain.BundleRealisesPrediction: the two transactions run one after the other with nothing between, as in the mined bundle.
- `uuid4` ids are a parameter assumed fresh in `Builder`; `Mempool.Pool.Add` also covers a repeated id.
- HTTP, JSON, FastAPI, websocket, TLS and DNS transport: a send, a connect and the chain's replies succeed or fail arbitrarily; receipts are arbitrary but aligned with their transactions.
- `simulateBundle` and the chain's snapshot and revert: it changes no record.
- A bundle item that is not a JSON object, and the fields of a directly submitted transaction, which are parsed or not parsed as a whole.
- The order in which messages of different submissions reach one subscriber, and what the client does with them.
- Thread-level races inside the builder: what runs between two awaits is one step.
- `Reconnect.WsSource`: the buffer, the stream objects and the message hand-off to the queue; cancelled operations appear as handlers that run at any time with any result.
- GivingUp.GivesUpAfterElevenDials: a late handler fails; one that had already succeeded when its operation was cancelled, and so carries on an abandoned attempt, is covered by `Backoff.BackoffIsBounded` only.
- Fairness of the scheduler and of the mutex: `Monitor` proves that a step is always possible, not that every thread gets its turn.
- Decimal.PrintedAmountDecodes: covers amounts and decimals that are not negative, as Python's `//` and `%` on negative amounts print a text that is not a decimal amount.
- Characters are single code units and `to_lower` lowers the ASCII letters only.
