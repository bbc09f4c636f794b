# Wallet back end: a verified model

This project models the parts of the wallet back end whose correctness spans several functions, and proves what they
are for. Databases are sequences and maps, in-memory stores are classes that change in place, and everything the code
asks the outside for (RPC node, signer, provider, clock, fresh ids, network replies) is an input that may take any value.

| file | component | what is proved |
|---|---|---|
| `Prelude.dfy`, `ChainStatus.dfy` | shared types, statuses, finality by depth | |
| `NonceReservations.dfy` | wallet nonces, in memory and in Postgres | nonces stay distinct in every run; both paths agree except in three named cases |
| `ChainRows.dfy` | chain rows, replacement, today's spend | replacement links are ordered, set once and end; the spend sum moves by what is recorded and replaced |
| `TransferLogs.dfy`, `SigningIntents.dfy` | the two stores a transfer also lives in | |
| `ChainSync.dfy` | one sync over all stores | no data of an abandoned block survives; what each answer of the node decides |
| `SigningWorker.dfy` | the worker's processing of claimed intents | counters, and what each failure leaves |
| `Agreement.dfy`, `Lifecycle.dfy` | runs of requests, claims, worker outcomes and syncs | chain row, transfer log and intent agree in every run, also when action ids repeat |
| `SharedReservations.dfy` | several intents on one nonce reservation | the reservation agrees too exactly while no step meets a reservation in use; a request is safe to queue exactly when it is handed a free one |
| `LiveRows.dfy` | the same runs | one live row per nonce exactly while nothing is recorded beside a reorged row |
| `ReservedNonces.dfy` | runs in which every payload spends the nonce it was handed | a broadcast replaces exactly the active transactions of its own reservation |
| `IntentClaims.dfy` | several workers, one database operation at a time | no intent is claimed or broadcast twice; exactly when a released reservation was never broadcast |
| `Decimals.dfy`, `SwapQuotes.dfy`, `IssuerPolicy.dfy` | decimal text arithmetic, the quote search, the issuer limit | exact arithmetic on strings of any length; the search finds the first best of all offers |
| `DeliveryQueue.dfy`, `QueueOrder.dfy`, `SignalDrain.dfy` | in-memory queues with acknowledgement, the drain | conservation, first in first out, no delivery after acknowledgement, attempts bounded over consecutive drains and exact for signals that always fail, termination |
| `AlertDedup.dfy`, `BackpressureGate.dfy` | alert de-duplication, the producer gate | pruning is invisible exactly when the lifetime covers the window; delivery counts; the gate over its whole history |
| `ReconciliationIssues.dfy`, `Reconciliation.dfy` | cross-database reconciliation | issues open exactly when their condition holds; exact counters; a repeat is idle |

`dafny verify dfyconfig.toml` checks all files together.

## How the code is read

- One `syncRow` call and the processing of one claimed intent are single steps in `Lifecycle.dfy`; store errors do not
  occur there, except a failing `recordChainTransaction`, which the worker swallows. `IntentClaims.dfy` takes the
  worker apart into single database operations and lets other workers, syncs and requests act in between, and lets a
  worker stop anywhere.
- A run may start from any state that satisfies the invariant; the empty state does. What a run assumes of its steps:
  record ids are new; a broadcast that succeeds returns a hash no store knows (a node refuses a transaction it has,
  which is a failed broadcast; when it takes one again, `Lifecycle.ResentAgreesIff` and `Lifecycle.UnrecordedAgreesIff`
  say what follows); and a receipt names its block (`CarriesBlock`; `ReceiptKeepsLogsIff` and `NamelessReceipt` say what
  happens when it does not). Action ids may repeat: the send route takes them from the client's trace headers. A
  reconciliation pass reads the clock once.
- Event data and topics are hexadecimal words, as the RPC library returns them.
- Facts of the code that the model keeps, and that a reader may not expect:
  - `markReplacedTransferAttempts` reaches the transfer log and the reservation but not the intent, so the intent of a
    replaced transaction stays submitted or confirmed (`Agreement.IntentAgrees`).
  - When no provider is found the reservation stays as it was; the failure path overwrites the intent's hash with the
    one it had when it was claimed (`Lifecycle.FailureFate`).
  - A chain row is looked up by the reconciliation under the lower-cased hash only, as the query does.

## Findings

Properties a reader would expect and that the code does not have, each with an input and the exact condition. The
inputs of the first six are runs from empty stores.

- Two sends with one trace id and two idempotency keys are handed one reservation
  (`services/nonce-reservation.service.ts:298-306, 314-315`). Both are queued, the second broadcast replaces the first
  transaction and overwrites the reservation's hash, so the replaced transaction has no reservation left to be failed
  (`SharedReservations.TwiceUnderOneTrace`). Reservation and row keep telling the same story exactly while no step
  meets a reservation in use (`StepFitsIff`, `RunFitsIff`); queueing a request is safe for all that follows exactly when
  the reservation it is handed carries no recorded transaction and no pending intent names it (`QueueIsSafeIff`).
- The replacement branch is taken on the send route, by the same input, and only so: a broadcast replaces the active
  transactions sent under its own reservation (`ReservedNonces.ReplacedIff`, `RunReplacesIff`).
- A refused request releases its reservation, and a retry with the same trace id is queued on it and broadcast while
  it is still released (`IntentClaims.RetryAfterRefusal`). Exactly when this happens: `StepAnyIff`, `RunAnyIff`. A
  reservation that a worker released after a failed signature is queued on again by a retry in the same way
  (`RetryAfterWorkerRelease`). Exactly in which runs: `StepReleasesIff`, `RunReleasesIff`; never when each intent has a
  reservation of its own (`OwnRunReleases`).
- A dropped transaction that the node takes again under its old hash has a log and an intent that say submitted beside
  a row that stays dropped (`SharedReservations.ResentAfterDrop`, `Lifecycle.ResentAgreesIff`).
- A reorged row is not replaced by a later transaction with its nonce, and the sync looks at both
  (`LiveRows.TwoLiveRows`). Exactly when: `ChainRows.SingleLiveIff`, `LiveRows.RunSingleLiveIff`.
- The in-memory nonce scan fires once the counter is stuck at 2^53, where JavaScript's `+ 1` has no effect
  (`ScanFiresIff`); three reservations reach that state (`ScanCanFire`).
- The two nonce paths differ exactly on a colliding action key, a retry with a stale requested nonce and a number above
  the 32-bit column (`PathsAgreeIff`); one reservation in the store is enough for each (`CollisionDiffers`,
  `StaleRetryDiffers`, `OverflowDiffers`).
- Pruning changes alert verdicts exactly when the lifetime is below the window (`PruningInvisibleIff`,
  `TrimsInvisibleIff`); three alerts show it (`Exposing`).
- When both watermarks coincide, a load that stays at the mark raises an alert each time (`StayingAtTheMark`).

## Model

| member | source | states |
|---|---|---|
| Decimals.DecimalIff | services/xrpl-swap.service.ts:75-78 | a decimal is digits, or digits, a point and digits, and is cut at the point |
| Decimals.NormalizeKeepsValue | services/xrpl-swap.service.ts:73-83 | normalising succeeds on exactly the well-formed decimals, keeps the number and gives the canonical text |
| Decimals.NormalizeIdempotent | services/xrpl-swap.service.ts:73-83 | normalising twice changes nothing; a canonical text is its own normal form |
| Decimals.NormalFormUnique | services/xrpl-swap.service.ts:73-83 | two decimals have the same normal form exactly when they are the same number |
| Decimals.CompareIsExact | services/xrpl-swap.service.ts:96-112 | comparison is the sign of the difference of the two numbers, for texts of any length, and fails exactly on malformed input |
| Decimals.UnitsTextValue | services/xrpl-swap.service.ts:118-126 | padding, cutting and stripping write exactly n / 10^scale, canonically |
| Decimals.MultiplyFloorIsExact | services/xrpl-swap.service.ts:114-127 | the result is floor(value * 10^scale * num / den) / 10^scale in exact numbers, canonical |
| Decimals.MultiplyFloorBounds | services/xrpl-swap.service.ts:114-127 | it is at most the exact product and less than one last digit below it; with factor one it is the value itself |
| SwapQuotes.FirstBestUnique | services/xrpl-swap.service.ts:264-292 | there is one first best position by larger destination, then smaller source, then earlier |
| SwapQuotes.FirstBestOfConcat | services/xrpl-swap.service.ts:439-451 | the first best of two lists joined is decided by the first bests of the parts |
| SwapQuotes.KeptIff | services/xrpl-swap.service.ts:213-262 | an alternative is kept exactly when both its amounts name the asset's currency and, except for XRP, its issuer, up to space and case; what makes it fail |
| SwapQuotes.PickBestAlternative | services/xrpl-swap.service.ts:264-292 | the best alternative of the reply that fits the pair, as the reply gives it; none exactly when none fits; an error exactly when one is malformed or an asset unresolved |
| SwapQuotes.DeliverMinIsSafe | services/xrpl-swap.service.ts:592-599 | deliverMin is canonical, at most the destination amount, within 10^-scale of the exact slippage-reduced amount, and equal at zero slippage |
| SwapQuotes.NormalizeSlippage | services/xrpl-swap.service.ts:518-526 | refused exactly outside 0 to 5000 basis points; otherwise the value itself, or 50 when none is given |
| SwapQuotes.QuoteSpecificPath | services/xrpl-swap.service.ts:544-614 | one pair's quote gives the best fitting alternative of its reply; it fails exactly on the listed faults of assets, send amount, request and reply |
| SwapQuotes.BetterQuoteJoins | services/xrpl-swap.service.ts:439-451 | keeping the better quote keeps the first best of everything seen so far |
| SwapQuotes.ErrorDecides | services/xrpl-swap.service.ts:649-669 | the first error of the pair loop is the error of the whole search |
| SwapQuotes.QuoteSwap | services/xrpl-swap.service.ts:616-669 | the winner is the best alternative any reply offers for two different candidate assets, the first of equals; NO_PATH exactly when none is offered; other failures exactly when a pair has a fault |
| IssuerPolicy.CopiesAgree | services/xrpl-issuer-policy.service.ts:216-244 | the second copy accepts the same texts and gives the same exact answer as the first |
| IssuerPolicy.DistributionAllowedIff | services/xrpl-issuer-policy.service.ts:630-659 | a distribution passes exactly when it is switched on, within the limit as a number, and the holder qualifies |
| NonceReservations.ActionKeyInjective | services/nonce-reservation.service.ts:87-89 | without a colon in wallet ids, equal action keys mean equal wallet, chain and action |
| NonceReservations.ActionKeysMayCollide | services/nonce-reservation.service.ts:87-89 | with one they may not: two different triples with one key |
| NonceReservations.NoCollisionWithoutColons | services/nonce-reservation.service.ts:87-89 | a lookup by action key never meets another action when no wallet id holds a colon |
| NonceReservations.StateKeyInjective | services/nonce-reservation.service.ts:83-85 | state keys never collide |
| NonceReservations.FreshNonce | services/nonce-reservation.service.ts:235-356 | on both paths a new action gets the nonce it asks for, or the larger of the chain's pending nonce and the counter; too low a request is refused |
| NonceReservations.FreshNonceIsGrantedIff | services/nonce-reservation.service.ts:235-356 | when a new action gets a nonce at all, on each path |
| NonceReservations.RepeatedAction | services/nonce-reservation.service.ts:298-315 | a repeated action gets its reservation back and nothing changes |
| NonceReservations.BadNumbersAreRefused | services/nonce-reservation.service.ts:235-240 | numbers that are not safe integers are refused |
| NonceReservations.ScanFiresIff | services/nonce-reservation.service.ts:337-345 | the scan for a taken nonce fires exactly when the counter has stuck at 2^53 and that nonce is out |
| NonceReservations.ScanCanFire | services/nonce-reservation.service.ts:314-356 | three reservations from the empty store reach that state |
| NonceReservations.PathsAgreeIff | services/nonce-reservation.service.ts:235-356 | both paths give the same new state and answer, except exactly in three named cases |
| NonceReservations.CollisionDiffers | services/nonce-reservation.service.ts:314-315 | a store with one reservation in which the in-memory lookup hands out another wallet's |
| NonceReservations.StaleRetryDiffers | services/nonce-reservation.service.ts:264-267 | a retry with its old nonce gets its reservation in memory and an error in Postgres |
| NonceReservations.OverflowDiffers | services/nonce-reservation.service.ts:244-283 | a chain nonce above the 32-bit column is reserved in memory only |
| NonceReservations.ReserveKeepsInv | services/nonce-reservation.service.ts:235-356 | a reservation on either path keeps nonces distinct and counters growing; a refused one changes nothing |
| NonceReservations.StepKeepsInv | services/nonce-reservation.service.ts:390-423 | reserve, mark and release by id or by hash keep the invariant and every reservation's nonce |
| NonceReservations.MarksWrite | services/nonce-reservation.service.ts:390-423 | each mark writes its status to exactly the reservations it names |
| NonceReservations.RunIsSafe | services/nonce-reservation.service.ts:235-423 | in every run over both paths, nonces of a wallet and chain stay distinct and below the counter, each action has one reservation, counters never go back |
| NonceReservations.MemoryNonces.ReserveNonce | services/nonce-reservation.service.ts:314-356 | the in-memory path, with its scan loop, does what the specification says |
| NonceReservations.MemoryNonces.FindReservation | services/nonce-reservation.service.ts:147-158 | the first reservation with the request's key |
| NonceReservations.MemoryNonces.UpdateById | services/nonce-reservation.service.ts:160-202 | status and hash of the reservation with this id, nothing else |
| NonceReservations.MemoryNonces.MarkSubmittedById | services/nonce-reservation.service.ts:394-403 | an empty hash is refused; otherwise status and trimmed hash are set |
| NonceReservations.MemoryNonces.UpdateByTxHashes | services/nonce-reservation.service.ts:204-233 | the status of exactly the reservations with one of the hashes, and how many they were |
| TransferLogs.TransferLogStore.UpdateTransferStatus | services/transfer-log.service.ts:295-315 | the first log with the id takes the update, nothing else changes |
| TransferLogs.TransferLogStore.UpdateAttempts | services/transfer-log.service.ts:317-377 | exactly the logs with one of the hashes take the update, in place |
| SigningIntents.OldestQueued | services/signing-intent.service.ts:719-722 | the oldest queued intent, the earliest stored among equals |
| SigningIntents.IntentStore.ClaimNextQueued | services/signing-intent.service.ts:719-726 | the claim approves that intent and no other |
| SigningIntents.IntentStore.UpdateIntentsByHash | services/signing-intent.service.ts:658-687 | exactly the intents with the hash take the status, and how many they were |
| ChainRows.RecordKeepsLinks | services/wallet.service.ts:560-632 | recording keeps every replacement link in order, exactly unless the caller's status is replaced, and sets it once; a duplicate is refused with nothing changed; no older row of the nonce stays active |
| ChainRows.RecordTells | services/wallet.service.ts:545-641 | rows that still count, of the same wallet, network and nonce, become replaced by the new one; the others stay; the new row comes last with what the caller gave |
| ChainRows.SetRowKeepsLinks | services/chain-transaction-sync.service.ts:516-532 | a sync never turns a row into a replaced one and leaves every link alone |
| ChainRows.Follow | services/wallet.service.ts:577-623 | following replacement links ends at a row nobody replaced, with the same wallet, network and nonce |
| ChainRows.SingleLiveIff | services/wallet.service.ts:563-591 | recording a live row leaves one live row per nonce exactly when no reorged row spends it |
| ChainRows.SpendAfterRecord | services/wallet.service.ts:498-520 | recording moves the day's spend by its value, if its status counts, less what its same-day replaced rows counted; other wallets and networks stay |
| ChainRows.SpendAfterSetRow | services/wallet.service.ts:498-520 | a status change moves the sum by that row's value, only when it enters or leaves the active statuses |
| ChainRows.SpentCounts | services/wallet.service.ts:498-520 | a row counts towards the day's spend exactly when it is the wallet's, of today, and submitted, included or confirmed |
| ChainRows.ChainRowStore.RecordChainTransaction | services/wallet.service.ts:545-641 | find, update and create in one transaction with the caller's status, rolled back on a duplicate key |
| ChainSync.SyncKeepsChainData | services/chain-transaction-sync.service.ts:432-709 | after one sync, whatever the node answers, every stored log and token transfer names its row's current block, and block fields, counts and index fit the status |
| ChainSync.ReceiptKeepsLogsIff | services/chain-transaction-sync.service.ts:467-514 | a receipt leaves no stale log exactly when it names its block or nothing stored is left unlisted |
| ChainSync.NamelessReceipt | services/chain-transaction-sync.service.ts:280-325 | one log in a receipt without a block: a stored log without a current block |
| ChainSync.NotMinedHoldsNothing | services/chain-transaction-sync.service.ts:83-121 | submitted, reorged and dropped rows have no stored logs, tokens or indexed block |
| ChainSync.NeverBackToSubmitted | services/chain-transaction-sync.service.ts:640-664 | the branch back to submitted is taken exactly by an included row without block data, which no sync produces |
| ChainSync.SyncDecides | services/chain-transaction-sync.service.ts:446-709 | the new status by receipt depth, block in place, transaction known and age |
| ChainSync.SyncTells | services/chain-transaction-sync.service.ts:516-709 | when a sync changes anything, every reservation, intent and log of the transaction tells the row's new status: confirmed, failed with its reason, or submitted |
| ChainSync.ReceiptWrites | services/chain-transaction-sync.service.ts:451-532 | height, hash and gas come from the receipt, the time from its block |
| ChainSync.ReceiptIsIndexed | services/chain-transaction-sync.service.ts:281-430 | every indexed receipt log is stored, at finality every transfer with sender, receiver, amount or id; after a move nothing else |
| ChainSync.HexValueOfJoined | services/chain-transaction-sync.service.ts:351-355 | amounts and ids are read from their words digit by digit, the first weighing most |
| ChainSync.OneDigit | services/chain-transaction-sync.service.ts:351-355 | each hexadecimal digit counts its value, in either case |
| ChainSync.WalletStores.PersistChainIndexData | services/chain-transaction-sync.service.ts:184-328 | index row and logs upserted, the logs by a loop |
| ChainSync.WalletStores.PersistTokenTransfers | services/chain-transaction-sync.service.ts:330-430 | token transfers upserted for exactly the transfer logs, with standard, amount, token id and wallets |
| ChainSync.WalletStores.ClearIndexedEventData | services/chain-transaction-sync.service.ts:60-81 | no log or token transfer of the transaction is left, and every other transaction's stays as it was |
| ChainSync.WalletStores.ClearIndexedReceiptData | services/chain-transaction-sync.service.ts:83-121 | the same, and its index row, if it has one, names no block any more; no index row is added or lost |
| ChainSync.WalletStores.ApplyReceipt | services/chain-transaction-sync.service.ts:451-578 | the receipt branch over all stores |
| ChainSync.WalletStores.SyncRow | services/chain-transaction-sync.service.ts:432-709 | the whole sync, branch by branch, reaches the specified state of all stores |
| SigningWorker.Worker.ProcessClaimed | services/signing-intent.worker.ts:112-201 | sign, broadcast, store updates in order, and what a thrown error leaves |
| SigningWorker.SucceedsIff | services/signing-intent.worker.ts:128-140 | a broadcast succeeds exactly when the returned hash, or the derived one if none was returned, is not blank |
| SigningWorker.Worker.StoreSent | services/signing-intent.worker.ts:140-188 | reservation, intent, log and chain row of a transaction that went out |
| SigningWorker.Worker.MarkReplacedTransferAttempts | services/chain-transaction-sync.service.ts:850-853 | logs and reservations of the replaced hashes, not the intents |
| SigningWorker.Worker.ProcessQueuePass | services/signing-intent.worker.ts:203-278 | the pass loop reaches the specified state with the specified counters |
| SigningWorker.PassCounts | services/signing-intent.worker.ts:211-277 | a pass settles min(batch, queued) intents, each a success or a failure, and the queue shrinks by as many |
| SigningWorker.ProcessSettlesIntent | services/signing-intent.worker.ts:215-271 | processing changes one intent, which ends submitted with the hash or failed with the claimed one |
| Agreement.SetStatusKeepsAgreement | services/chain-transaction-sync.service.ts:516-558 | a status written by a sync keeps row, log and intent telling the same, each in its own terms |
| Agreement.SyncKeepsAgreement | services/chain-transaction-sync.service.ts:432-709 | one sync keeps row, log and intent of every transaction in agreement, whatever the node answers |
| Lifecycle.SendAdds | app/api/wallet/send/route.ts:360-544 | a request adds at most one reservation, or reuses the one of its action; it adds a log unless turned down silently, and an intent that names both if it is queued; turned down, its reservation is released |
| Lifecycle.QueuedTells | app/api/wallet/send/route.ts:495-544 | a queued request stores its own wallet, chain, amount and nonce in log and intent, and the intent names both log and reservation |
| Lifecycle.TurnedDownTells | app/api/wallet/send/route.ts:400-493 | a request turned down releases its reservation and queues nothing |
| Lifecycle.RecordAgreesIff | services/signing-intent.worker.ts:156-179 | recording a sent transaction, with everything it replaces, keeps rows, logs and intents in agreement exactly when whatever else is stored under its hash says submitted too |
| Lifecycle.SuccessKeepsInv | services/signing-intent.worker.ts:120-190 | a successful outcome keeps the whole invariant |
| Lifecycle.SuccessFate | services/signing-intent.worker.ts:134-190 | after a recorded broadcast reservation, intent and log say submitted under the returned hash, or the derived one if none was returned |
| Lifecycle.SentRow | services/signing-intent.worker.ts:156-179 | and the new row spends the intent's amount and nonce under that hash |
| Lifecycle.FailureKeepsInv | services/signing-intent.worker.ts:191-270 | so does every failure |
| Lifecycle.FailureFate | services/signing-intent.worker.ts:191-200 | after a failure the reservation is as it was, released or failed by how far the worker got, and intent and log are failed without a hash, with the error's text |
| Lifecycle.StepKeepsInv | services/signing-intent.worker.ts:203-278 | every request, claim, outcome and sync keeps the invariant, all links and all nonces |
| Lifecycle.RunKeepsInv | services/chain-transaction-sync.service.ts:432-709 | in every run, with action ids repeating freely, row, log and intent agree on every recorded transaction, no abandoned block's data survives, links stay in order, nonces stay distinct |
| Lifecycle.StartsConsistent | services/signing-intent.worker.ts:203-278 | the same from empty stores |
| Lifecycle.ResentAgreesIff | services/signing-intent.worker.ts:134-188 | a broadcast under an already recorded hash keeps the agreement exactly when that row still says submitted and replaced nothing |
| Lifecycle.UnrecordedAgreesIff | services/signing-intent.worker.ts:134-188 | the same for a hash that logs or intents know but no row: agreement exactly when they say submitted and name what the new row replaces, or when recording fails again |
| SharedReservations.StepFitsIff | services/signing-intent.worker.ts:134-200 | a step keeps every reservation confirmed, failed or submitted as its row's status requires, exactly when it does not meet a reservation in use |
| SharedReservations.RunFitsIff | services/nonce-reservation.service.ts:390-423 | so does a run, if and only if none of its steps does |
| SharedReservations.FreeRunFits | services/nonce-reservation.service.ts:314-356 | if every request is handed a reservation in no other use, reservations and rows agree in the whole run |
| SharedReservations.QueueIsSafeIff | app/api/wallet/send/route.ts:360-544 | queueing a request is safe for every such later run if and only if the reservation it is handed is in no other use |
| SharedReservations.TwiceUnderOneTrace | app/api/wallet/send/route.ts:360-366 | two requests of one action id, both broadcast: the second replaces the first and takes its reservation |
| SharedReservations.ResentAfterDrop | services/chain-transaction-sync.service.ts:666-709 | a dropped transaction sent again under its hash: the log says submitted, the row stays dropped |
| LiveRows.SyncKeepsSingleLive | services/chain-transaction-sync.service.ts:432-709 | a sync never makes a second row of a nonce live |
| LiveRows.StepSingleLiveIff | services/wallet.service.ts:563-591 | a step keeps one live row per nonce exactly when it does not record beside a reorged one |
| LiveRows.RunSingleLiveIff | services/wallet.service.ts:563-591 | so does a run, if and only if none of its steps does |
| LiveRows.TwoLiveRows | services/wallet.service.ts:563-591 | a run from empty stores: sent, mined, thrown out, and a second broadcast beside it |
| Lifecycle.SpendAfterSync | services/chain-transaction-sync.service.ts:516-532 | a sync moves the day's spend by its own row's value as the row enters or leaves the active statuses |
| Lifecycle.SpendAfterStep | services/wallet.service.ts:498-520 | requests, claims and failures spend nothing; a recorded broadcast spends its value less what it replaces |
| ReservedNonces.ReplacedIff | app/api/wallet/send/route.ts:360-377 | a broadcast replaces exactly the active rows whose intents hold its own reservation |
| ReservedNonces.StepReplacesIff | services/wallet.service.ts:560-591 | a step replaces something exactly when it broadcasts under a reservation with an active transaction |
| ReservedNonces.RunReplacesIff | app/api/wallet/send/route.ts:360-377 | when every payload spends its reserved nonce, a run replaces something if and only if some broadcast does so |
| IntentClaims.StepKeepsHistory | services/signing-intent.service.ts:690-717 | no step claims or broadcasts an intent twice or queues a claimed one again |
| IntentClaims.StepWrites | services/signing-intent.worker.ts:112-201 | what each worker step writes to intents and reservations, in literal statuses, and that it writes nothing else |
| IntentClaims.OthersWrite | services/chain-transaction-sync.service.ts:536-558 | what the send route and the sync write beside the workers, and nothing else |
| IntentClaims.StepRemembers | services/signing-intent.worker.ts:112-201 | which steps count as a claim, a broadcast or a release |
| IntentClaims.StepReleasesIff | services/signing-intent.worker.ts:191-200 | a step keeps worker-released reservations unsent exactly when it does not release or queue on one shared with a sender |
| IntentClaims.RunReleasesIff | services/signing-intent.worker.ts:191-200 | so does every interleaving, if and only if none of its steps does |
| IntentClaims.OwnRunReleases | app/api/wallet/send/route.ts:360-377 | with one reservation per intent no run broadcasts on a reservation a worker released |
| IntentClaims.StepAnyIff | app/api/wallet/send/route.ts:441-493 | the same for a release by worker or route: exact condition for one step |
| IntentClaims.RunAnyIff | app/api/wallet/send/route.ts:441-493 | and for every interleaving |
| IntentClaims.ReleasedIsBroadcast | services/signing-intent.worker.ts:112-188 | an intent queued on a released reservation is broadcast on it by any idle worker |
| IntentClaims.RetryAfterRefusal | app/api/wallet/send/route.ts:485-490 | a refused request and its retry: a broadcast on a released reservation |
| IntentClaims.RetryAfterWorkerRelease | services/signing-intent.worker.ts:191-200 | a failed signature and a retry: a broadcast on a reservation the worker released |
| IntentClaims.RunClaimsOnce | services/signing-intent.service.ts:689-727 | the same over every interleaving of several workers, syncs and requests |
| IntentClaims.AtMostOnce | services/signing-intent.service.ts:689-727 | from empty tables: claims and broadcasts without repetition, broadcasts only of claimed intents; with one reservation per intent, never on one a worker released |
| DeliveryQueue.InMemoryQueue.EnqueueMessage | services/security-signal-queue.adapter.ts:181-222 | a full queue refuses or drops its oldest; otherwise the entry goes last |
| DeliveryQueue.InMemoryQueue.DequeueMessages | services/security-signal-queue.adapter.ts:224-253 | after reclaim, the first available entries leave in order and are in flight |
| DeliveryQueue.InMemoryQueue.SpliceAvailable | services/security-signal-queue.adapter.ts:233-250 | the splice loop takes the first maxBatch available entries, leaves the rest in order, and ends |
| DeliveryQueue.InMemoryQueue.ReclaimExpired | services/security-alert-delivery-queue.ts:311-321 | expired flights return to the end of the queue, in flight order |
| DeliveryQueue.TakeCutsOnce | services/security-signal-queue.adapter.ts:233-250 | taking cuts the queue at one place and stops early only with a full batch |
| QueueOrder.FirstInFirstOut | services/security-signal-queue.adapter.ts:181-253 | an entry enqueued later is not delivered before an available earlier one, over any run in which both wait |
| QueueOrder.EnqueuedGoesLast | services/security-signal-queue.adapter.ts:181-222 | an entry taken in goes behind all others; a full queue drops its oldest first |
| QueueOrder.DeliveredIsInFlight | services/security-signal-queue.adapter.ts:224-253 | what is delivered is in flight until its time |
| QueueOrder.AcknowledgedIsGone | services/security-signal-queue.adapter.ts:255-257 | an acknowledgement takes exactly its entry out of flight |
| QueueOrder.LookingReclaims | services/security-signal-queue.adapter.ts:169-179 | looking at the queue puts what expired in flight back |
| DeliveryQueue.RunConserves | services/security-signal-queue.adapter.ts:169-257 | in every run each enqueued id is in exactly one of queue, flight, acknowledged, dropped |
| DeliveryQueue.WhereIsIt | services/security-alert-delivery-queue.ts:311-396 | the four places of one id, from an empty queue |
| DeliveryQueue.AckedIsFinal | services/security-signal-queue.adapter.ts:255-257 | a message acknowledged in flight is never delivered again |
| SignalDrain.RetryDelayGrows | services/security-anomaly.service.ts:882-887 | the delay never exceeds the maximum and never shrinks |
| SignalDrain.RetryDelayDoubles | services/security-anomaly.service.ts:882-887 | the first retry waits the base delay, each further one twice as long up to the maximum |
| SignalDrain.HandlingTells | services/security-anomaly.service.ts:1215-1260 | a failed message goes back to the end of the queue with one retry more while retries are left and the queue takes it, and has failed otherwise; one counter rises |
| SignalDrain.Drainer.Drain | services/security-anomaly.service.ts:1193-1296 | the drain handles every message it dequeues once, at most maxItems, its counters add up, it ends, and its steps are a run the bound below applies to |
| SignalDrain.Drainer.DrainAgainAndAgain | services/security-anomaly.service.ts:1193-1296 | over consecutive drains with other tasks in between, no signal is attempted more than maxRetries + 1 times unless a message expires in flight |
| SignalDrain.AttemptsAreBoundedFromStart | services/security-anomaly.service.ts:1215-1260 | without expiry in flight no signal is attempted more than maxRetries + 1 times over all drains |
| SignalDrain.AttemptsAreBounded | services/security-anomaly.service.ts:1215-1260 | the same from any bounded state, with other tasks in between |
| SignalDrain.AlwaysFailingIsTriedOut | services/security-anomaly.service.ts:1215-1260 | a signal that always fails, with room and without expiry, is attempted exactly maxRetries + 1 times |
| SignalDrain.AlwaysFailingIsTriedOutFromStart | services/security-anomaly.service.ts:1215-1260 | the same for every run from an empty queue |
| BackpressureGate.ThrottledIff | services/security-anomaly.service.ts:934-980 | the bit says overloaded, except right after a load exactly at marks that coincide |
| BackpressureGate.AlertsCountEpisodes | services/security-anomaly.service.ts:946-973 | one alert per episode of overload when the marks differ; one per touch or rise when they coincide |
| BackpressureGate.StayingAtTheMark | services/security-anomaly.service.ts:946-973 | with coinciding marks a load that stays at the mark raises an alert each time and no episode |
| BackpressureGate.Gate.Admit | services/security-anomaly.service.ts:934-980 | the gate is closed exactly while the load has stayed above the low mark since it reached the high one |
| AlertDedup.PruningInvisible | services/security-alert.service.ts:841-857 | with a lifetime of at least the window, pruning changes no verdict, count or escalation |
| AlertDedup.PruningInvisibleIff | services/security-alert.service.ts:841-857 | and only then |
| AlertDedup.TrimsInvisible | services/security-alert.service.ts:981-1068 | the same however the verdicts and trims of several alerts interleave |
| AlertDedup.TrimsInvisibleIff | services/security-alert.service.ts:981-1068 | and only with such a lifetime |
| AlertDedup.EscalationsClosedForm | services/security-alert.service.ts:471-478 | n duplicates escalate (n - after) div every + 1 times once n reaches after |
| AlertDedup.BurstIsDeliveredExactly | services/security-alert.service.ts:931-979 | a burst is delivered once plus once per escalation, with other keys and trims in between |
| AlertDedup.Alerts.EvaluateDedup | services/security-alert.service.ts:931-979 | verdict and new entry of one alert |
| AlertDedup.VerdictTells | services/security-alert.service.ts:931-979 | duplicate, count and times by the window; an escalation raises the severity by one step |
| AlertDedup.DeliveryTells | services/security-alert.service.ts:981-1068 | an alert is delivered exactly when it is new, escalates, or all are configured to be |
| AlertDedup.Alerts.TrimBuffers | services/security-alert.service.ts:841-857 | the newest buffer entries and the entries that are not stale remain |
| AlertDedup.Alerts.Emit | services/security-alert.service.ts:981-1068 | verdict, record and trim of one alert, in place, and whether it goes to delivery |
| ReconciliationIssues.IssueStore.SetIssueState | services/cross-db-reconciliation.service.ts:172-250 | upsert or resolve of one issue, and which change it was |
| ReconciliationIssues.OpenCountBalances | services/cross-db-reconciliation.service.ts:164-250 | open issues after a pass are those before plus opened minus resolved |
| ReconciliationIssues.ChecksDecide | services/cross-db-reconciliation.service.ts:172-250 | after a pass an issue is open exactly when its check says so |
| ReconciliationIssues.ChecksRecord | services/cross-db-reconciliation.service.ts:172-250 | what a pass writes: first and last seen, resolved, trace id and reasons |
| ReconciliationIssues.ChangeSays | services/cross-db-reconciliation.service.ts:172-250 | the reported change is the one between before and after |
| ReconciliationIssues.RepeatIsIdle | services/cross-db-reconciliation.service.ts:172-250 | the same pass at the same clock opens and resolves nothing and leaves the table as it is |
| ReconciliationIssues.ChecksCompose | services/cross-db-reconciliation.service.ts:855-857 | passes one after the other add up, in table and counters |
| Reconciliation.TransferPassDecides | services/cross-db-reconciliation.service.ts:419-496 | past the grace time the missing issue is open exactly for a hash without a row, or no hash in one of seven statuses; the mismatch issue exactly when wallet, address, amount, nonce or status differ |
| Reconciliation.CountsWhatIsOpen | services/cross-db-reconciliation.service.ts:419-496 | the counters are the numbers of examined logs with an open issue |
| Reconciliation.MismatchSaysWhy | services/cross-db-reconciliation.service.ts:458-496 | the reasons of a mismatch are exactly the differences |
| Reconciliation.TransferPassLeavesOthers | services/cross-db-reconciliation.service.ts:419-496 | issues of other references and other kinds are untouched |
| Reconciliation.TransferPassBalances | services/cross-db-reconciliation.service.ts:338-499 | open issues after the transfer pass are those before plus opened minus resolved |
| Reconciliation.TransferPassIsIdle | services/cross-db-reconciliation.service.ts:338-499 | the transfer pass again at the same clock changes nothing |
| Reconciliation.NormalHashIsFixed | services/cross-db-reconciliation.service.ts:111-114 | a normalised hash is its own normal form |
| Reconciliation.TxKeyInjective | services/cross-db-reconciliation.service.ts:137-139 | lookup keys of different transactions differ |
| Reconciliation.Reconciler.LatestIntents | services/cross-db-reconciliation.service.ts:398-402 | the map holds the first, and so newest, intent of every log |
| Reconciliation.Reconciler.FetchByKey | services/cross-db-reconciliation.service.ts:252-276 | looking a wanted transaction up by its key finds exactly its chain row |
| Reconciliation.Reconciler.ReconcileWalletTransfers | services/cross-db-reconciliation.service.ts:338-499 | the loops settle exactly the specified checks and count them exactly |

## Left out

- Prisma, Redis, Kafka, ethers and xrpl clients: only the atomic store operations the code uses are modelled; store errors appear only where the code catches them and goes on.
- Interleavings inside one `syncRow`, and inside the worker across stores: one sync and one intent are atomic in `Lifecycle.dfy`.
- Awaits inside the dedup check and inside the nonce reservation between reading and writing: each is one step.
- `syncRecentEvmChainTransactions`: choice, grouping and counting of rows; any order of single syncs is covered instead.
- `reconcileXrplActions` and `reconcileSendRiskDecisions`: the same loop over the same issue table with other conditions.
- ChainRows.ChainRowStore.RecordChainTransaction: does not model recipient, asset, gas and data fields, which are copied, or block fields given by the caller, which no caller gives; it lists replaced rows in creation order, and `Record` and its lemmas allow any order.
- The post-quantum anchor route, which reserves nonces and records transactions of its own.
- Idempotency keys, policy and risk decisions of the send route: a request is refused or accepted as an input.
- Payload archiving, signed payloads, gas fields, transaction metadata, daily summaries and the legacy internal operations in the spend sum.
- Trimming of in-memory transfer logs above 5000 entries and of intents above 10000.
- 32-bit range of database columns other than nonces; JavaScript number range other than nonces.
- Case mapping and trimming beyond ASCII letters and JavaScript white space; checksums of addresses in `topicAddress`.
- ChainSync.WalletStores.PersistTokenTransfers: does not model how an address is matched to a wallet, which is an input; the asset symbol is always none.
- SwapQuotes.QuoteSwap: does not model how candidate assets are resolved and made unique, nor the path-finding connection; candidates and replies are inputs.
- Redis queue adapters, alert sinks, payload fields of alerts, and the watermark arithmetic on floating-point factors: the watermarks are inputs.
- Environment parsing, logging, telemetry, user interface, cryptography.
