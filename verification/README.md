# PartyBridge, modelled and verified

PartyBridge watches a deposit on one chain and then either mints a wrapped token on another or releases the native
coin held in one of its escrow wallets. This project models that logic in Dafny and proves what it keeps.

| file | what it models |
|---|---|
| `Types.dfy`, `Uuid.dfy` | the stored records, the currency names, UUID strings and the substring test used on them |
| `Routes.dfy` | the three switch tables: who watches, mint or release, which shim |
| `Requests.dfy` | the stored list of watch requests: upsert, unlock on crash, and removal while ranging over the list |
| `Sums.dfy`, `Ledger.dfy` | the escrow ledger: storing, debiting by substring, filter, halving search and choice of the payer |
| `Dispatching.dfy` | a dispatch as a function on the stored lists and the shims' transfers |
| `Server.dfy` | class `ExchangeServer`: the loops over slices, each proved equal to the functions above |
| `Polling.dfy` | the six polling loops over a sequence of ticker and timer events |
| `Session.dfy` | the WebSocket session, with the amount as a shared `BigInt` that is added to in place |
| `Warren.dfy` | the bounded channel between the ticker and the workers |
| `Protocol.dfy` | many pods as one state machine: confirm, tick, offer, receive, claim, quit, finish, unlock, kill |
| `Pipeline.dfy` | from a tick's snapshot to a started watch and its claim, in the protocol's runs |
| `Watching.dfy` | the polling loops' verdicts and the protocol's steps, shown to be the same |
| `Locks.dfy`, `Conservation.dfy`, `Payments.dfy`, `Backing.dfy`, `Stock.dfy` | theorems about its runs |
| `Limits.dfy` | runs that show why the conditions in those theorems are there |

Main results, over every run of the protocol machine from an empty store:

- Whatever the interleaving, no confirmed order is lost, both keys of the list stay unique, a locked record is
  unlocked only by the pod it names as that pod shuts down, and every transfer made by a shim is of the ordered amount,
  to the ordered address, by the shim of the order's group, a release using the key of a deposit of that group.
- Every order is in exactly one of the active list, done and failed, and has at most one watcher, in every state of a
  run, if and only if every claim in it is of an order that is then listed and unwatched (`ExactlyOnePlace`). The code
  checks neither: it claims whatever an earlier snapshot held. `Limits` has three runs that break it: a claim of a
  settled order, a claim of an order that another pod has just claimed, and a claim of an order whose old watcher is
  still there because its pod has unlocked it and not yet gone. The three lists alone stay apart if and only if claims
  are of listed orders and no dispatch settles the other way an order that is settled (`ListsApartThroughout`).
- In every run an order is done if and only if it has been paid (`DoneExactlyWhenPaid`). No order is paid twice, except
  after a release from an empty ledger, if and only if no dispatch that its shim accepts is of an order already done
  (`PaidTwiceExactlyWhen`); so it is when every claim is as above. The exception is real: the shim pays, nothing records
  it, and it can happen again to the same order.
- A group is backed, its ledger covering what was minted less what was released, in every state of a run if and only if
  it can bear each step (`RunBackedExactlyWhen`). What a step takes from a group or adds to it is stated exactly: a paid
  deposit adds its amount in place of what its account still holds, a mint takes its amount whether paid for or not, a
  release takes nothing, and one from an empty ledger adds. That holds of every run, with stale claims, time-outs,
  negative orders and repeated mints.
- It is enough that each step is safe: claims as above, no negative order, and no mint for a timed-out native deposit
  that has no account on the ledger (`AlwaysBacked`). Those three are exactly what keeps the books, by which each mint
  is of an account of its own and no account holds more than its deposit (`KeptExactlyWhen`). `Limits` has, for each of
  the three, a run that meets the other two and is not backed. The run with the timed-out deposit is formal for orders a
  session stores: `pkg/adapter.go:317` sets their TimeOut to a Unix time, which `pkg/evm.go:65` then waits for as a
  number of seconds, some 55 years.
- The ledger counts deposits by order, and wallets are made one a session (`HandleClientRequests`, `SharesWallet`). Two
  orders confirmed in one session watch one balance; one deposit pays for both, and in a run of safe steps both are
  minted (`OneDepositMintsTwice`).
- What each operation does is also said field by field, in terms that its own definition does not share: which loop
  watches and which shim is asked at which endpoint (`WatcherExactly`, `ReleaseShimExactly`), what reads pay
  (`VerdictOnReads`), what a session stores (`StoredAreOrders`), which amount is searched for and which is moved
  (`FoundWhereHalvingLeads`, `ReleaseStep`, `MintStep`, `EscrowExactly`), where the search stops on a list in any order
  (`SearchHalves`), and what a tick leads to (`DueExactly`).
- A release finds an account if and only if some deposit has been paid into its group before, minted or not, in every
  run whatever; and that decides whether it settles or panics (`NeverFromNothing`).
- A watch that is abandoned under its lock, on a failed or short read, a refused dispatch or the death of its pod,
  leaves its order locked and unwatched for as long as neither its own pod unlocks it nor an older copy of it is
  claimed, and no longer.

Properties the code has only on some inputs are stated with the exact condition: removal (`RemovalExactlyWhen`), debit
by substring (`DebitExactlyWhen`), choice of the nearest account (`BestExactlyWhen`, `BestExactlyWhenAscending`), panic
of a release (`ReleasePanicsExactlyWhen`), claims (`ClaimKeepsApartExactlyWhen`, `ListsApartExactlyWhen`), payment (`PaidTwiceExactlyWhen`),
backing (`BackedExactlyWhen`) and the books (`BooksExactlyWhen`).

Modelling choices. Redis keys are typed lists and each store operation is one atomic step that succeeds. A shim call
either does what it is asked or does nothing (`shimOk`). UUIDs, the clock and balance reads are parameters. A Go
run-time panic is a result (`Panicked`, `OutOfRange`, `IndexOutOfRange`); in the protocol it takes the pod's memory
with it and leaves its locks, as does being killed at any point. A pod that shuts down first unlocks its records, and
its watchers run on until it is gone. Amounts are unbounded integers, as `big.Int` is. In `Warren`, a parameter says
how far the workers get between sends, so the contracts hold for every interleaving. Where the repository's own text
differs from the code, the code is followed: the list is filtered on BridgeTo against the request's BridgeFrom and is
not sorted, in spite of the comment at `pkg/redis.go:275`; and the BSCUSDT example of the repository's README, which
sends currency `grams` from chain `bscusdt`, is a route that nothing watches (`WatchedExactly`).

## Model

| member | source | states |
|---|---|---|
| BridgeTypes.UnwrappedExactly | pkg/redis.go:266-273 | a wrapped name is its native one after a "w"; no other name is changed |
| Uuid.ContainsExactly | pkg/redis.go:348 | the substring test is having the text anywhere |
| Uuid.ReadAlikeExactly | pkg/redis.go:32-41 | two AWRIDs are read as one if and only if both are well formed and differ at most in the case of letters |
| Uuid.ContainsIsEquality | pkg/redis.go:348 | between IDs of one length the substring test is equality |
| Routes.WatchedExactly | pkg/helper.go:148-225 | for all strings, a watch starts exactly for a chain's own coin leaving for another chain that wraps, or the target's wrapping coming back from one |
| Routes.WatcherExactly | pkg/helper.go:148-225 | for all strings, which of the six loops watches: each exactly on its own routes |
| Routes.MintShimExactly | pkg/shim.go:37-53 | for all strings, which shim is asked to mint, or that there is none |
| Routes.ReleaseShimExactly | pkg/shim.go:143-161 | for all strings, which shim is asked to release and at which endpoint |
| Routes.BridgedExactly | pkg/helper.go:51-136 | for all strings, exactly which routes mint, which release, and which are unsupported |
| Routes.WatchedIsBridged | pkg/helper.go:51-225 | every watched route is accepted; native coins mint and wrapped ones release, each at the shim that keeps its group |
| Routes.MintRouteReverses | pkg/shim.go:37-161 | every mint route has a watched way back, by the same shim, out of the group it credited |
| Routes.ReleaseRouteReverses | pkg/redis.go:266-281 | every release route is the way back of exactly one mint route |
| Requests.UpsertShape | pkg/redis.go:31-51 | with unique AWRIDs an upsert appends or rewrites one place |
| Requests.UpsertMembers | pkg/redis.go:31-51 | an upsert puts the request in, keeps every other transaction's record, and keeps both keys unique |
| Requests.UpsertIsMapUpdate | pkg/redis.go:31-51 | seen as a map by AWRID, an upsert is a map update |
| Requests.UpsertAnywhere | pkg/redis.go:31-51 | on any list, an upsert fails if and only if an ID in its way cannot be parsed, and otherwise replaces every record read as the same ID, or appends |
| Requests.RemoveIsMapDelete | pkg/redis.go:125-129 | seen as a map by AWRID, a removal deletes that transaction's key only |
| Requests.UnlockIsPointwise | pkg/redis.go:87-92 | seen as a map, a crash rewrites in place the records of that pod only |
| Requests.UnlockLeavesNone | pkg/redis.go:87-92 | after it no record names the pod, and only the two lock fields of its own records have changed |
| Requests.RangeLoopFromStart | pkg/redis.go:125-129 | the loop on the shared array leaves every record but those removed, skipping the one that slides into a removed place, and slices out of range exactly when a matching last record has an earlier match |
| Requests.RemovalExactlyWhen | pkg/redis.go:125-129 | the loop removes exactly the matching records if and only if no two neighbours match and a matching last record is the only match |
| Requests.RemovalPanicsExactlyWhen | pkg/redis.go:125-129 | the loop slices out of range if and only if the last record matches and so does an earlier one |
| Requests.RemovesOnlyMatch | pkg/redis.go:125-129 | with at most one match it stays in range and yields the list without that record, in order, or unchanged |
| Server.ExchangeServer.UpdateAccountWatchRequestInDB | pkg/redis.go:17-65 | the loop over the slice is the upsert; on a parse error nothing is stored |
| Server.ExchangeServer.UpdateAccountWatchRequestsOnCrash | pkg/redis.go:69-107 | the loop unlocks the pod's own records |
| Server.ExchangeServer.RemoveAccountWatchRequestFromDB | pkg/redis.go:111-147 | the in-place loop stores what the removal is said to leave; out of range it stores nothing |
| Server.ExchangeServer.StoreFailedAccountWatchRequest | pkg/redis.go:371-400 | appends to the failed list |
| Server.ExchangeServer.StoreBridgeAccount | pkg/redis.go:181-231 | upserts the escrow account of the request, by TransactionID |
| Server.ExchangeServer.RetrieveBridgeAccount | pkg/redis.go:240-330 | filter loop, halving search and choice return the specified account, no account, or an index out of range |
| Server.ExchangeServer.UpdateBridgeAccountInDB | pkg/redis.go:334-367 | the loop debits every account whose ID contains the text |
| Server.ExchangeServer.RequestToMintWrappedCurrency | pkg/shim.go:25-106 | what is asked of which shim, and the error cases |
| Server.ExchangeServer.RequestToTransferCoinOnChainFromShim | pkg/shim.go:108-230 | retrieve, pay, debit, in that order, with both panics and the error cases |
| Server.ExchangeServer.CreateBridgeRequest | pkg/helper.go:51-136 | the nested switches carry out the table's action for the route, or nothing |
| Server.ExchangeServer.DispatchResult | pkg/helper.go:9-49 | store, bridge, remove, in that order, with what each failure leaves |
| Server.ExchangeServer.SettleWatch | pkg/evm.go:93-111 | a success of a native coin that could not be dispatched moves to the failed list; other loops leave it |
| Server.ExchangeServer.WatchAccount | pkg/helper.go:138-146 | the copy is locked for this pod, written back, and routed |
| Server.ExchangeServer.Route | pkg/helper.go:147-225 | the nested switches pick the watcher of the table |
| Ledger.Search | pkg/redis.go:305-307 | on any list, the search stops where the amount before is below the target and the amount there is not |
| Ledger.SearchHalves | pkg/redis.go:305-307 | on any list in any order, the search stops where halving leads, each probe deciding its side |
| Ledger.ProbesDecide | pkg/redis.go:305-327 | a concrete unordered list on which the probes decide which account pays |
| Ledger.Bracketed | pkg/redis.go:305-327 | on any non-empty list in any order, accesses are in bounds, the target is bracketed, and the nearer neighbour is picked |
| Ledger.NearestIsBest | pkg/redis.go:305-327 | on an ascending list the pick minimises the distance over all candidates, ties going to the smaller amount, and an exact match is always used |
| Ledger.BestExactlyWhen | pkg/redis.go:285-327 | on any list, with any repeats, the pick is best for every request if and only if it is for each stored amount and for one more than each |
| Ledger.BestExactlyWhenAscending | pkg/redis.go:285-327 | with pairwise different amounts, the pick is best for every request if and only if the list ascends |
| Ledger.UnsortedPicksWorse | pkg/redis.go:285-327 | a concrete list out of order on which an exact match is passed over |
| Ledger.RepeatsHideDisorder | pkg/redis.go:305-327 | with repeated amounts a list out of order can still be best for every request |
| Ledger.DebitExactlyWhen | pkg/redis.go:347-352 | a debit spares every other account if and only if it is of nothing or no other stored ID contains this one |
| Ledger.DebitReaches | pkg/redis.go:347-352 | on any ledger, exactly the accounts with the text anywhere in their ID pay, and only their amount changes |
| Ledger.DebitIsExact | pkg/redis.go:347-352 | with IDs of one length a debit is of exactly that ID |
| Ledger.StoreShape | pkg/redis.go:206-216 | with distinct IDs a store appends or replaces one account, and IDs stay distinct |
| Ledger.StoreAnywhere | pkg/redis.go:206-216 | on any ledger, every account with the ID is replaced, or the new one goes to the end |
| Ledger.ExactAccounting | pkg/redis.go:181-367 | after any history of stores and debits, each ID holds its last stored account less the debits made to it since |
| Ledger.FoundExactlyWhen | pkg/redis.go:261-315 | an account is found if and only if the group has one, and then it is of the group |
| Ledger.CandidatesInOrder | pkg/redis.go:275-281 | the filter keeps the ledger's order and exactly the accounts of the asset that were bridged to the chain |
| Ledger.FoundWhereHalvingLeads | pkg/redis.go:305-327 | whatever the order, the account found is the nearer of the two next to where halving for the inner amount leads |
| Ledger.ReleaseDebits | pkg/redis.go:334-367 | a release debits the one account found; its group's total falls by the amount and every other total stands |
| Ledger.ReleaseLeavesLeast | pkg/redis.go:305-352 | on ascending candidates no other account is nearer to the inner amount; where that is what is debited, none would have been left closer to zero |
| Dispatching.RequestWatchedExactly | pkg/helper.go:148-225 | which loop watches a request, by its Chain, BridgeTo and Currency |
| Dispatching.ClaimedExactly | pkg/helper.go:140-142 | the claimed copy has the pod, the time, and nothing else changed |
| Dispatching.EscrowExactly | pkg/redis.go:181-216 | a paid native deposit leaves on any ledger one kind of account under its ID: its chain, wallet key, inner amount and route |
| Dispatching.MintStep | pkg/shim.go:25-106 | a mint is made if and only if there is a willing shim for it, of the outer amount, to the shipping address |
| Dispatching.ReleaseElse | pkg/shim.go:108-230 | a release that does not succeed moves nothing, but for one from an empty ledger |
| Dispatching.BridgesExactly | pkg/helper.go:51-136 | by its own fields a request is minted, released, or refused with nothing done |
| Dispatching.DispatchesInTurn | pkg/helper.go:9-49 | on any lists: bridging follows the store and precedes the removal, whose panic comes after the money has moved and the failed list is written |
| Dispatching.ReleaseStep | pkg/shim.go:108-230 | a successful release is paid right: key sent, account debited, group, totals, and least balance left |
| Dispatching.ReleasePanicsExactlyWhen | pkg/shim.go:224 | a release panics if and only if its group has no account and the ledger has some or the shim has paid |
| Polling.VerdictIsTheEndingEvent | pkg/evm.go:72-134 | success, timeout, abandonment and waiting are each decided, both ways, by the one event that ends the loop |
| Polling.VerdictOnReads | pkg/evm.go:72-134 | paid if and only if after short ticks both reads of one are enough; given up if and only if a first read fails, or is enough and the second fails or is short |
| Polling.TidiesUpExactlyWhen | pkg/evm.go:93-111 | only a paid native-coin watch whose dispatch failed is tidied up after: stored as failed, then removed |
| Polling.PaysForLess | pkg/evm.go:84-89 | on reads that agree, events that pay for one amount pay for any smaller one |
| Polling.DispatchesOnce | pkg/evm.go:72-134 | at most one dispatch: "success" exactly when paid, "error" exactly when timed out |
| Polling.WaitAndVerifyEVMChain | pkg/evm.go:32-136 | the native-coin loop is the common machine, and tidies up after a failed success |
| Polling.WaitAndVerifyBridgeToken | pkg/evm.go:138-508 | the four token loops are the common machine on the same reads |
| Polling.WaitAndVerifyBSCUSDT | pkg/bscusdt.go:74-150 | the sixth loop is the common machine with failed reads erased and each read verified by itself |
| Polling.ErasedVerdictOnReads | pkg/bscusdt.go:103-149 | paid if and only if after failed or short reads one is enough; timed out if and only if after such reads the timer fires |
| Polling.ErasedIsNeverAbandoned | pkg/bscusdt.go:115-136 | that loop never gives up a watch on its reads |
| Session.HandleClientRequests | pkg/adapter.go:261-341 | every stored order is the last accepted quote's, with the one wallet the session ever draws, and the message that ends the session is the first that can |
| Session.ConfirmedExactly | pkg/adapter.go:310 | every confirmation stores one order, in turn |
| Session.StoredAreOrders | pkg/adapter.go:311-331 | field by field, every stored order has the wallet's address and key, its own two IDs, and the route, currency, address and amount of the message last quoted |
| Session.EndsExactlyWhen | pkg/adapter.go:282-330 | what refuses a request or panics ends the session, and nothing else |
| Session.StoredAreOfSession | pkg/adapter.go:288-331 | every order a session stores is of its one wallet |
| Session.SharesWallet | pkg/adapter.go:288-330 | two stored orders share deposit address and key if and only if their sessions' wallets are one |
| Session.Quote | pkg/adapter.go:282-308 | the message's own big.Int is kept and then added to in place, once |
| Session.OrderAmounts | pkg/adapter.go:282-335 | both amounts are the last quoted amount plus one fee, at least minimum plus fee outside dev mode |
| Warren.UnlockedInOrder | pkg/adapter.go:430-445 | what a list hands over is, in order, exactly its unlocked records |
| Warren.HandedOverInTurn | pkg/adapter.go:394-416 | ticks hand over in turn, failed reads nothing, and nothing after the cancellation |
| Warren.WarrenQueue.WorkerReceives | pkg/adapter.go:448-464 | a worker starts the oldest copy; its check drops none |
| Warren.WarrenQueue.Send | pkg/adapter.go:444 | a send waits for room; the channel never exceeds the workers |
| Warren.WarrenQueue.Pass | pkg/adapter.go:421-446 | a pass enqueues exactly its snapshot's unlocked records, in order, however the workers interleave |
| Warren.WarrenQueue.StartWarren | pkg/adapter.go:368-419 | over all ticks until cancellation, enqueued is started followed by queued |
| Protocol.SettleIs | pkg/helper.go:9-49 | on a list with unique keys, bridging decides what happens and the request leaves the list exactly when done or moved |
| Protocol.StepKeeps | pkg/redis.go:17-147 | every step keeps keys unique, copies known, channels bounded and unlocked, watchers locked, the ledger's IDs, and coverage |
| Pipeline.DueExactly | pkg/adapter.go:396-455 | a tick adds to what its pod has due exactly the records stored unlocked, in order; passing on and starting lose nothing; only a claim or the death of the pod takes any |
| Pipeline.TicksAreStarted | pkg/adapter.go:396-455 | after a tick, passing on and receiving, every record stored unlocked is started |
| Pipeline.ClaimStamps | pkg/helper.go:140-146 | after a claim its order's only record is locked by the pod with the time of the claim |
| Locks.UnlockedExactlyBy | pkg/redis.go:87-92 | a locked record still listed turns unlocked if and only if the step is the unlocking of the pod in LockedBy |
| Locks.CopiesNeverGrow | pkg/adapter.go:421-464 | no step gives any pod another unlocked copy of an order stored locked |
| Locks.CopiesNeverGrowWhileLocked | pkg/helper.go:138-146 | nor does any stretch of a run in which it stays locked |
| Conservation.NeverLost | pkg/redis.go:17-147 | in every run each confirmed order is listed, done or failed, and removal always has at most one match |
| Conservation.ClaimKeepsApartExactlyWhen | pkg/helper.go:138-146 | a step keeps each order in one list with at most one watcher if and only if it is not a claim of an unlisted or watched order |
| Conservation.ExactlyOnePlace | pkg/helper.go:40-46 | so it is in every state of a run if and only if every claim of the run is of a listed, unwatched order |
| Conservation.ListsApartExactlyWhen | pkg/redis.go:17-147 | from any sound state a step keeps the three lists apart if and only if it is a claim of a listed order, a dispatch that does not settle the other way an order already settled, or anything else |
| Conservation.ListsApartThroughout | pkg/redis.go:17-147 | over whole runs, the lists stay apart throughout if and only if every step is so |
| Conservation.StrandsExactlyWhen | pkg/evm.go:75-111 | a step leaves a watched order locked and unwatched if and only if it is a failed or short read, a dispatch refused and not moved to the failed list, a panic, or the death of the pod |
| Conservation.AbandonedUntilFreed | pkg/redis.go:87-92 | and so the order stays if and only if its pod does not unlock it and no older copy of it is claimed |
| Payments.EveryTransferAsOrdered | pkg/shim.go:25-230 | in every run each mint and release has its order's amount, address, group and shim, and a release the key of a deposit of that group |
| Payments.FinishPays | pkg/shim.go:25-230 | a dispatch makes one transfer, of its own order, if and only if the shim is willing and is asked, and none otherwise; the transfer is from nobody if and only if a release finds the ledger empty, and else the order is done |
| Payments.DoneExactlyWhenPaid | pkg/helper.go:24-46 | in every run an order is done if and only if an account or a mint has paid it |
| Payments.PaidTwiceExactlyWhen | pkg/helper.go:24-46 | throughout a run, of two transfers for one order the earlier was from nobody if and only if no dispatch that its shim accepts is of an order already done |
| Payments.NoOrderPaidTwice | pkg/helper.go:138-146 | so it is, among others, in every run of free claims |
| Watching.VerdictsAreSteps | pkg/evm.go:72-134 | whatever its events, a loop that ends takes an enabled step of the protocol with the same result and the same effect on the lists |
| Watching.OneDepositPaysBoth | pkg/evm.go:75-89 | orders with one deposit address, on reads that agree: what pays for one pays for any of no greater amount |
| Watching.StepsAreVerdicts | pkg/bscusdt.go:103-149 | every step the protocol lets a watcher take is what its loop comes to on some events; a BSCUSDT watcher never quits |
| Backing.StoreBooks | pkg/redis.go:206-216 | storing or resetting an unminted order's escrow keeps the books of every group |
| Backing.MintBooks | pkg/shim.go:25-106 | minting a whole account once keeps them |
| Backing.ReleaseBooks | pkg/shim.go:224 | a release paid by an account of its group keeps them |
| Backing.SessionsConfirm | pkg/adapter.go:310-335 | what a session stores can be confirmed, with equal amounts, and is not negative outside dev mode |
| Backing.BackedExactlyWhen | pkg/helper.go:9-49 | in any sound state any step changes the slack of each group by exactly what it stores, mints, or releases from nobody, and leaves the group backed if and only if the slack covers that |
| Backing.RunBackedExactlyWhen | pkg/helper.go:9-49 | in every run a group is backed throughout if and only if it can bear each step, and its slack is what the steps add up to |
| Backing.UnpaidMintTakesSlack | pkg/helper.go:11-25 | after minting an unpaid deposit its group is backed if and only if it had that much to spare |
| Backing.BooksExactlyWhen | pkg/helper.go:9-49 | a step keeps the books if and only if it is a free claim, a confirmation of no negative amount, a native dispatch that was paid, is refused or has its account, or anything else |
| Backing.KeptExactlyWhen | pkg/helper.go:9-49 | over whole runs, the books are kept throughout if and only if every step is so |
| Backing.AlwaysBacked | pkg/helper.go:9-49 | safe steps are enough for every group to be backed in every state of a run |
| Stock.LedgerOnlyGrows | pkg/redis.go:206-216 | in every run accounts keep their place, ID, key and group; only amounts change |
| Stock.StockedExactlyWhen | pkg/redis.go:206-216 | in every run a group has an account if and only if it had one or a deposit has been paid into it |
| Stock.NeverFromNothing | pkg/redis.go:311-315 | in every run a release finds an account of its group if and only if a deposit has been paid into the group, which decides between settling and panicking |
| Stock.ReleasesPayRight | pkg/shim.go:224 | in every run a release that settles is paid right, the amount searched for being the amount debited |
| Limits.TimeoutIsNotBacked | pkg/helper.go:11-25 | a run that dispatches one timed-out deposit and is not backed, formal for a session's own TimeOut |
| Limits.NegativeIsNotBacked | pkg/adapter.go:283 | a run with one negative order, as dev mode allows, that is not backed |
| Limits.StaleClaimIsNotBacked | pkg/adapter.go:396-411 | a run in which two pods snapshot one order, it is minted twice, and it is not backed |
| Limits.DoubleClaimIsTwoPlaces | pkg/evm.go:98-109 | a run in which two pods claim one order while it is listed, and it ends both done and failed |
| Limits.ShutdownRaceIsNotBacked | pkg/adapter.go:201-212 | a run in which every claim is of a record stored unlocked, and an order unlocked by a pod that still watches it is minted twice |
| Limits.OneDepositMintsTwice | pkg/adapter.go:288-330 | a run of safe steps in which one deposit pays for two orders of one session and both are minted |
| Limits.EmptyLedgerPaysTwice | pkg/shim.go:108-224 | a run of safe steps in which one order is released twice from an empty ledger |

## Left out

- Redis transport, JSON and their errors: a failed read would be taken for an empty list; here every operation succeeds.
- Lost updates between two pods inside one Get/Set pair: each store operation is one step.
- Backing.AlwaysBacked: takes a dispatch (store, bridge, remove) as one step; a pod that dies between minting and
  removing would mint again when the order is retried.
- Ledger.BestExactlyWhenAscending: is for pairwise different amounts, since a list with repeats can be best out of order
  (`RepeatsHideDisorder`); `BestExactlyWhen` is the equivalence for every list.
- Server.ExchangeServer.UpdateAccountWatchRequestInDB: UUIDs are read in their 36-character form only; the parser's
  braced, `urn:` and undashed forms do not occur in what the server stores.
- Server.ExchangeServer.RequestToTransferCoinOnChainFromShim: amounts are never nil, as no session stores one; the
  retry on an "insufficient balance" error of request construction is not part of this model, nor are HTTP and TLS.
- Polling.WaitAndVerifyBSCUSDT: its context is Background(), whose Done never fires, so that branch is omitted; the nil
  balance of a non-200 answer is not part of this model.
- Session.HandleClientRequests: a panic ends the session here; the pod it takes down is the protocol's kill step.
  Writing to the socket and the status messages are left out.
- Warren.WarrenQueue.StartWarren: what copies still queued at cancellation come to is left out, as is how long a step takes.
- The on-chain balances behind the accounts: backing is about the ledger's own amounts.
- Wall-clock time, Ethereum RPC, key generation and signing, the decimal library (ToWei(v, 18) is v times 10^18), the
  contract bindings, metrics, logging and deployment.
- writeFailedTransactionToFile and the order types that no modelled code uses.
