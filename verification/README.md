# Core chain and transaction pool: a verified model

This project models the stateful heart of the node's `core` package and proves what keeps it
consistent: the transaction pool, the canonical chain, the chain indexer, gas and fee
accounting, and the parallel block processor.

**Transaction pool.** Classes follow the source's objects: `TxSortedMap` (map, nonce heap,
cached order), `TxList` (cached caps, strict or gapped), `TxLookup`, `TxPricedList` (urgent and
floating heap), `TxNoncer` and `TxPool`. `PoolSpec` is the pool as a value: the pending and
queued lists, the lookup, the virtual nonces. Every pool operation is a sequence of elementary
edits (`Drop`, `Put`, `Promote`, `Demote`, `Cap`, `MarkLocal`, `NewHead`, `SetAll`); the methods
of `TxPool`, which update one structure after the other as the source does, are proved to
replay, on that value, exactly the edits they report. Whole-run theorems are then about
sequences of edits: no transaction is lost or doubled (`PoolSpec.EveryRunIsConsistent`), and
whenever the pool lock is released an account's pending nonces are the interval from the chain
nonce to the virtual nonce (`PoolSteady.EveryRunIsSteady`). Two things can break that interval.
Promoting a transaction of nonce 2^64-1 does, because its successor wraps to 0, and a reset that
lowers the account's nonce may. `PoolSteady.ResetExact` says exactly when a whole reset, with its
re-injected transactions and its promotions and demotions of all accounts in any order, leaves
the interval in place, and `PoolReorg.ResetTruncated` exactly when the truncation that follows
mends what it left; `ResetCanLeaveAGap` is an instance. `TxPool.RunReorg` is one critical section
in full: which transactions are re-injected or turned away and why, which accounts are promoted
and demoted, the heartbeats (`Heartbeats`), and a truncation that is exact water-filling of the
pending lists and goes strictly by age in the queue. `PoolResets` has the walk that finds what to
re-inject. `Fates` reads promotion and demotion transaction by transaction, as money: what is
pending after a reset its senders can pay for, by the very check the state transition makes, and
the first transaction of a steady account is accepted at the new head
(`Acceptance.FrontIsAccepted`).

**Canonical chain.** `BlockTree` is the immutable tree of blocks by hash. `HeaderChain` keeps
stored headers, total difficulties and the number index; `BlockChain` keeps the index and the
transaction lookup through reorganisations. In both the index can go wrong. A header import won
by a stored header that is tied with the head leaves the numbers of the batch as they were; a
reorganisation to a heavy but low block leaves entries above the head. Neither is an end: the
methods require only what every import keeps, so the theorems cover all further imports, and
they say, from the state of the index before it, whether an import leaves it canonical
(`HeaderChains.CanonicalAfterMove`, `BlockChains.TopDecides`). Head choice, total difficulties
and the transaction lookup never suffer.

**Chain indexer.** `ChainIndexer` in one locked section at a time, and as a step machine in
which the chain may change between any two header reads. Whatever is recorded stays one chain
(`ChainIndexers.EveryRunIsChained`), and while nothing disturbs it the indexer records section
after section until it has all it knows of (`ChainIndexers.CatchesUp`).

**Gas.** `GasPool`, `StateTransition`, `StateProcessor`: purchase, intrinsic gas, refund, tip,
for plain and meta transactions, with conservation of gas and money over a message and a block.
`Settlement` says in plain arithmetic who pays which part, which messages are accepted, and that
none runs twice.
A meta transaction whose fee payer is its own sender may be accepted and leave it overdrawn;
`StateTransitions.AcceptedOverdraws` says which are, and `OverdraftExists` gives one for any such
data.

**Parallel processing.** The batched loop and the three-stage pipeline over bounded channels,
under every schedule, against the sequential loop.

Conventions: hashing is injective, so a transaction value is its own hash (`payload` stands for
what the pool never looks at) and a block hash names one block. The EVM, signature checks,
`validateTx`, meta-data decoding, the clock, coin flips and the order in which Go ranges over a
map are parameters or arbitrary choices. The pool's limits are at least 1, as `sanitize` makes
them. The batch size of the block processor is at least 1 too, although nothing there ensures it:
the source divides by it. Its channels may have any capacity, none included.

## Model

| member | source | states |
|---|---|---|
| Heap.Up | Core-Blockchain/node_src/core/tx_list.go:35-51 | sifting up repairs a heap whose only broken edge is above the new element, keeping the entries |
| Heap.Down | Core-Blockchain/node_src/core/tx_list.go:35-51 | sifting down repairs the heap below a given position and reports whether anything moved |
| Heap.Init | Core-Blockchain/node_src/core/tx_list.go:117-124 | any slice becomes a heap of the same entries |
| Heap.Push | Core-Blockchain/node_src/core/tx_list.go:41-43 | a heap gains exactly the pushed entry and stays a heap |
| Heap.Pop | Core-Blockchain/node_src/core/tx_list.go:45-51 | takes out a least entry, the old head, and leaves a heap of the rest |
| Heap.Remove | Core-Blockchain/node_src/core/tx_list.go:171-189 | takes out the entry at an index and leaves a heap of the rest |
| Heap.Sort | Core-Blockchain/node_src/core/tx_list.go:219-231 | an ordered permutation |
| Heap.HeadBelowAll | Core-Blockchain/node_src/core/tx_list.go:532-561 | nothing in a heap is less than its head |
| Transactions.LowestMeaning | Core-Blockchain/node_src/core/tx_list.go:146-167 | the k lowest of a list are min(length, k) entries, each below every other one |
| Transactions.LowestUnique | Core-Blockchain/node_src/core/tx_list.go:146-167 | ... and no other part of the list is like that |
| Transactions.FlatUnique | Core-Blockchain/node_src/core/tx_list.go:219-239 | a list has one nonce-sorted flattening, so a cached one equals a fresh one |
| SortedMap.TxSortedMap.constructor | Core-Blockchain/node_src/core/tx_list.go:62-67 | empty, and valid: the heap holds exactly the map's keys, the cache is nil or the sorted values |
| SortedMap.TxSortedMap.Put | Core-Blockchain/node_src/core/tx_list.go:76-82 | refines map update; the heap gains the nonce only if it is new |
| SortedMap.TxSortedMap.Forward | Core-Blockchain/node_src/core/tx_list.go:87-103 | refines removal of all nonces below the threshold, returned in order; the sliced cache stays the sorted rest |
| SortedMap.TxSortedMap.FilterRaw | Core-Blockchain/node_src/core/tx_list.go:128-142 | removes exactly the selected transactions; when there are none the cache survives |
| SortedMap.TxSortedMap.Filter | Core-Blockchain/node_src/core/tx_list.go:108-124 | the same with the heap rebuilt |
| SortedMap.TxSortedMap.Cap | Core-Blockchain/node_src/core/tx_list.go:146-167 | keeps exactly the lowest nonces and returns the others from the top down; the sliced cache stays right |
| SortedMap.TxSortedMap.Remove | Core-Blockchain/node_src/core/tx_list.go:171-189 | refines map deletion and reports whether the nonce was there |
| SortedMap.TxSortedMap.Ready | Core-Blockchain/node_src/core/tx_list.go:197-212 | takes the maximal consecutive run from the smallest nonce when that is not above start, else nothing |
| SortedMap.TxSortedMap.Flatten | Core-Blockchain/node_src/core/tx_list.go:219-239 | all transactions by increasing nonce |
| SortedMap.TxSortedMap.LastElement | Core-Blockchain/node_src/core/tx_list.go:244-247 | the highest nonce's transaction of a non-empty map |
| TxLists.TxList.Add | Core-Blockchain/node_src/core/tx_list.go:282-309 | replaces only when both fee cap and tip rise and meet the bumped threshold; the cached caps keep bounding every member |
| TxLists.ReplacesMeans | Core-Blockchain/node_src/core/tx_list.go:282-309 | a replacement is accepted if and only if both prices rise, each to the bumped price less the fraction of a wei that the division drops |
| TxLists.TxList.Forward | Core-Blockchain/node_src/core/tx_list.go:320-322 | drops the nonces below a threshold |
| TxLists.TxList.Filter | Core-Blockchain/node_src/core/tx_list.go:333-361 | the short circuit on the caps never changes the result: removed, invalidated and kept are those of the full filter |
| TxLists.FilterPartition | Core-Blockchain/node_src/core/tx_list.go:333-361 | removed, invalidated and kept transactions partition the old list |
| TxLists.FilterContiguous | Core-Blockchain/node_src/core/tx_list.go:333-361 | filtering a gapless strict list leaves a gapless prefix of it |
| TxLists.TxList.Cap | Core-Blockchain/node_src/core/tx_list.go:366-368 | keeps the lowest nonces up to the threshold |
| TxLists.TxList.Remove | Core-Blockchain/node_src/core/tx_list.go:373-386 | goes by nonce; a strict list also gives up everything above |
| Lookup.TxLookup.Add | Core-Blockchain/node_src/core/tx_pool.go:1830-1842 | adds to one half; slots stays the sum of all sizes |
| Lookup.TxLookup.Remove | Core-Blockchain/node_src/core/tx_pool.go:1845-1862 | removes from either half; unknown hashes change nothing |
| Lookup.TxLookup.RemoteToLocals | Core-Blockchain/node_src/core/tx_pool.go:1866-1879 | moves exactly the remote transactions of local senders and counts them; nothing is lost and slots does not change |
| Lookup.TxLookup.RemotesBelowTip | Core-Blockchain/node_src/core/tx_pool.go:1882-1892 | lists each remote transaction below the threshold once |
| Lookup.SlotsMean | Core-Blockchain/node_src/core/tx_pool.go:1894-1896 | a transaction takes the fewest slots of 32 KiB that hold it |
| PricedLists.PriceOrder | Core-Blockchain/node_src/core/tx_list.go:432-456 | the price comparison is a strict weak order for any base fee |
| PricedLists.CmpMeans | Core-Blockchain/node_src/core/tx_list.go:432-456 | which of two transactions is the cheaper, on their fields: by the tip over the base fee if there is one, then fee cap, then tip cap; among equals the higher nonce goes first |
| PricedLists.TipMeans | Core-Blockchain/node_src/core/types/transaction.go:327-347 | the effective tip is the most that both the tip cap and the fee cap over the base fee allow |
| PricedLists.TxPricedList.Put | Core-Blockchain/node_src/core/tx_list.go:509-516 | a remote transaction gains one heap entry, a local one none |
| PricedLists.TxPricedList.Removed | Core-Blockchain/node_src/core/tx_list.go:520-529 | no live remote transaction loses its entry, whether or not the heaps are rebuilt |
| PricedLists.TxPricedList.Reheap | Core-Blockchain/node_src/core/tx_list.go:605-629 | one entry per remote transaction, the worse fifth in urgent order floating: none in the urgent heap is cheaper |
| PricedLists.TxPricedList.SetBaseFee | Core-Blockchain/node_src/core/tx_list.go:633-636 | the heaps are rebuilt in the order of the new fee |
| PricedLists.TxPricedList.Underpriced | Core-Blockchain/node_src/core/tx_list.go:532-561 | true exactly when something remote is live and nothing live is cheaper in its heap's order; then no floating one has a lower fee cap, and no urgent one a lower tip over the base fee |
| PricedLists.TxPricedList.Discard | Core-Blockchain/node_src/core/tx_list.go:566-602 | succeeds iff forced or the live slots cover the request, frees at least that much and no more than one transaction too many, restores the live set on failure; after a Reheap it evicts, without a base fee, those of lowest fee cap and then tip cap, and with one none that beats a kept one both in fee cap and in tip over the base fee |
| PricedLists.LiveIsRemote | Core-Blockchain/node_src/core/tx_list.go:566-602 | on heaps without duplicate live entries the live slots are the remote slots |
| PricedLists.DropsWeigh | Core-Blockchain/node_src/core/tx_list.go:566-602 | ... and the evicted entries weigh what their transactions weigh |
| Noncer.TxNoncer.Get | Core-Blockchain/node_src/core/tx_noncer.go:46-56 | answers the tracked nonce or the state's, and recording the fallback is unobservable |
| Noncer.TxNoncer.Set | Core-Blockchain/node_src/core/tx_noncer.go:60-65 | sets one account's virtual nonce |
| Noncer.TxNoncer.SetIfLower | Core-Blockchain/node_src/core/tx_noncer.go:69-80 | lowers one account's virtual nonce, never raises it |
| Noncer.TxNoncer.SetAll | Core-Blockchain/node_src/core/tx_noncer.go:83-88 | accounts left out fall back to the state's nonce |
| PoolSpec.RemoveFindsIt | Core-Blockchain/node_src/core/tx_pool.go:1040-1086 | removeTx searches by nonce, and what it finds is the transaction it was asked for |
| PoolSpec.RemoveTxInv | Core-Blockchain/node_src/core/tx_pool.go:1040-1086 | removal keeps the pool consistent and takes exactly that transaction out of the lookup |
| PoolSpec.InsertInv | Core-Blockchain/node_src/core/tx_pool.go:759-788 | adding or replacing keeps the pool consistent |
| PoolSpec.InsertionMeans | Core-Blockchain/node_src/core/tx_pool.go:759-843 | a transaction goes in just when no pooled one has its sender and nonce, or its prices are bumped; it takes that one's place, pending or queued, and else waits in the queue; nothing else changes |
| PoolSpec.PromoteInv | Core-Blockchain/node_src/core/tx_pool.go:1378-1439 | promotion keeps the pool consistent |
| PoolSpec.DemoteInv | Core-Blockchain/node_src/core/tx_pool.go:1579-1632 | demotion keeps the pool consistent, gapped lists included |
| PoolSpec.CapInv | Core-Blockchain/node_src/core/tx_pool.go:1476-1495 | capping a pending list keeps the pool consistent |
| PoolSpec.ApplyInv | Core-Blockchain/node_src/core/tx_pool.go:702-890 | whatever the edit, the pool's structures stay consistent |
| PoolSpec.EveryRunIsConsistent | Core-Blockchain/node_src/core/tx_pool.go:702-1632 | over every run each pooled transaction is in exactly one list and the lookup holds exactly the listed ones; no empty list is kept; pending and queued nonces are disjoint |
| PoolSteady.OpKeepsSteady | Core-Blockchain/node_src/core/tx_pool.go:1191-1248 | a batch of edits that does not promote the last nonce, or a whole reset that recovers, keeps an account's pending nonces equal to [state nonce, virtual nonce) |
| PoolSteady.EveryRunIsSteady | Core-Blockchain/node_src/core/tx_pool.go:1191-1248 | the same over every run, at every release of the pool lock, whatever happens to other accounts |
| PoolSteady.PromoteSettling | Core-Blockchain/node_src/core/tx_pool.go:1378-1439 | one promotion keeps the interval if and only if it does not take the last nonce |
| PoolSteady.PromotionsOnce | Core-Blockchain/node_src/core/tx_pool.go:1219-1226 | promoting each queued account, in any order, does to an account what promoting it alone does |
| PoolSteady.DemotionsOnce | Core-Blockchain/node_src/core/tx_pool.go:1579-1632 | the same for demotions |
| PoolSteady.RenonceExact | Core-Blockchain/node_src/core/tx_pool.go:1235-1240 | renewing the virtual nonces makes an account steady if and only if its pending list is one run from the state nonce that stops before the last nonce |
| PoolSteady.PromoteExtends | Core-Blockchain/node_src/core/tx_pool.go:1405-1411 | the promoted run starts exactly where the pending run ends |
| Acceptance.AffordsMeans | Core-Blockchain/node_src/core/types/transaction.go:294-299 | the pool's cost check is the one BuyGas makes on the message of that transaction: gas times fee cap plus value, and gas within the block |
| Fates.PromotionFates | Core-Blockchain/node_src/core/tx_pool.go:1383-1437 | each queued transaction: promoted just when it is in the first run of unmined, affordable nonces that starts at or below the virtual nonce; dropped when mined or unaffordable, and else only as the highest of a remote account whose share is full |
| Fates.PromotionBounds | Core-Blockchain/node_src/core/tx_pool.go:1415-1437 | a remote account's queue is within its share afterwards, and promotion loses nothing pending |
| Fates.DemotionFates | Core-Blockchain/node_src/core/tx_pool.go:1581-1630 | each pending transaction: dropped if and only if mined or unaffordable; kept pending if and only if the front nonce is there and everything from it on up to this one is affordable; else queued |
| Fates.ResetAffords | Core-Blockchain/node_src/core/tx_pool.go:1191-1248 | after any reset, truncation included, every pending transaction is unmined and its sender can afford it at the new head |
| Acceptance.FrontIsAccepted | Core-Blockchain/node_src/core/tx_pool.go:1579-1632 | where everything pending is affordable, as after a reset, the first pending transaction of a steady account, as a plain message whose fees and data fit, is refused for nothing by the state transition at that head |
| PoolSteady.ResetExact | Core-Blockchain/node_src/core/tx_pool.go:1191-1248 | for every reset: after promotions, demotions and fresh nonces the interval holds if and only if, when the last nonce is promoted, a pending transaction is unpayable, and otherwise the nonce was not lowered or, after re-injection, nothing is pending, no queued run starts at the new nonce, that run reaches the old one, or the old front is unpayable; truncation keeps it |
| PoolSteady.ResetCanLeaveAGap | Core-Blockchain/node_src/core/tx_pool.go:1613-1626 | a concrete pool of payable transfers and a reset that re-injects one of two lost transactions, for which it fails |
| PoolReorg.ResetTruncated | Core-Blockchain/node_src/core/tx_pool.go:1242-1244 | after the truncation of a reset the interval holds if and only if the reset recovered, or the pool was over its limit and the water level cuts a remote account's list inside the run in front of the gap |
| PoolResets.FindReinject | Core-Blockchain/node_src/core/tx_pool.go:1269-1332 | the walk from both heads down to their fork: when it gives up, and the transactions of the old branch less those of the new one |
| PoolResets.TxDifference | Core-Blockchain/node_src/core/types/transaction.go:424-439 | the members of the first list that are not in the second, in order |
| PoolResets.DifferenceJoins | Core-Blockchain/node_src/core/types/transaction.go:424-439 | the difference is taken element by element: order and repetitions of the first list survive |
| PoolResets.NothingFound | Core-Blockchain/node_src/core/tx_pool.go:1269-1276 | nothing is re-injected for a first head, one that extends the old one, or heads more than 64 numbers apart |
| PoolResets.ReinjectedExactly | Core-Blockchain/node_src/core/tx_pool.go:1269-1332 | between stored heads at most 64 numbers apart, exactly the transactions of the old chain that the new chain lacks are re-injected |
| TransactionPool.TxPool.constructor | Core-Blockchain/node_src/core/tx_pool.go:298-325 | the empty pool is consistent |
| TransactionPool.TxPool.EnqueueTx | Core-Blockchain/node_src/core/tx_pool.go:807-843 | the queue, lookup, price index and heartbeat after filing one transaction, replaced or refused by the price rule |
| TransactionPool.TxPool.PromoteTx | Core-Blockchain/node_src/core/tx_pool.go:860-890 | both branches: the older transaction kept, or the new one pending with the virtual nonce after it |
| TransactionPool.TxPool.PromoteRun | Core-Blockchain/node_src/core/tx_pool.go:1405-1411 | a ready run lands on the pending list whole: the branch that prefers an older transaction is never taken |
| TransactionPool.TxPool.RemoveTx | Core-Blockchain/node_src/core/tx_pool.go:1040-1086 | equals the specified removal; what follows on the pending list goes back to the queue; price coverage and other accounts' heartbeats are kept |
| TransactionPool.TxPool.MakeRoom | Core-Blockchain/node_src/core/tx_pool.go:720-758 | a full pool refuses exactly when the transaction is outbid, replacements are throttled, or a remote one asks for more than the live slots; else it frees the excess, from remote transactions only |
| TransactionPool.TxPool.Evict | Core-Blockchain/node_src/core/tx_pool.go:737-757 | the evicted transactions leave every structure; without duplicate heap entries the new one then fits |
| TransactionPool.TxPool.ClearRoom | Core-Blockchain/node_src/core/tx_pool.go:720-758 | only a full pool turns a transaction away or evicts, and what it does is justified by the pool's contents: throttling, the prices of the remote transactions, and the slots that are missing |
| TransactionPool.RoomMade | Core-Blockchain/node_src/core/tx_pool.go:737-757 | without duplicates, the slots evicted are the slots the lookup loses |
| TransactionPool.TxPool.Place | Core-Blockchain/node_src/core/tx_pool.go:759-799 | replaces a pending transaction or queues the new one, as specified, every remote transaction keeping a heap entry, with the heartbeat |
| TransactionPool.TxPool.MarkSender | Core-Blockchain/node_src/core/tx_pool.go:789-793 | a new local account takes all its remote transactions along, and nothing else changes |
| TransactionPool.TxPool.AddTx | Core-Blockchain/node_src/core/tx_pool.go:702-801 | the error or success in every case, the evictions, the insertion and the sender's promotion to local, as a replay of edits with the heartbeats; after a remote success the pool is within its slots; on freshly sorted heaps what is evicted is cheapest in the sense of Discard |
| TransactionPool.TxPool.SetGasPrice | Core-Blockchain/node_src/core/tx_pool.go:473-490 | a raised price removes exactly the remote transactions below it, a lowered one nothing |
| TransactionPool.TxPool.PromoteOne | Core-Blockchain/node_src/core/tx_pool.go:1383-1437 | one account's promotion equals its specification, read transaction by transaction in Fates.PromotionFates |
| TransactionPool.TxPool.PromoteExecutables | Core-Blockchain/node_src/core/tx_pool.go:1378-1439 | replays one promotion per account |
| TransactionPool.TxPool.DemoteOne | Core-Blockchain/node_src/core/tx_pool.go:1581-1630 | one account's demotion equals its specification, read transaction by transaction in Fates.DemotionFates |
| TransactionPool.TxPool.DemoteUnexecutables | Core-Blockchain/node_src/core/tx_pool.go:1579-1632 | replays one demotion for each pending account, in any order |
| TransactionPool.TxPool.CapPass | Core-Blockchain/node_src/core/tx_pool.go:1476-1495 | one equalising pass takes the last transaction of every offender and lowers the total by their number |
| TransactionPool.TxPool.Drain | Core-Blockchain/node_src/core/tx_pool.go:1469-1524 | passes until under the limit or at the threshold, standing at a water level throughout |
| TransactionPool.TxPool.TruncatePending | Core-Blockchain/node_src/core/tx_pool.go:1444-1526 | exact water-filling: a level no lower than the guaranteed slots and no lower than needed |
| Truncation.WaterFilledMeans | Core-Blockchain/node_src/core/tx_pool.go:1444-1526 | account by account: local lists untouched, every other keeps its min(length, level) lowest nonces; the total is within the limit or all are at the guarantee; the undershoot is less than the number of accounts cut |
| Truncation.LevelTotal | Core-Blockchain/node_src/core/tx_pool.go:1476-1495 | one level costs one transaction for each account above it |
| TransactionPool.TxPool.DropQueued | Core-Blockchain/node_src/core/tx_pool.go:1553-1569 | removes exactly the k lowest queued nonces of an account through removeTx |
| Truncation.DropNext | Core-Blockchain/node_src/core/tx_pool.go:1040-1086 | removing a queued transaction by hash takes the queue branch, because no pending one has its nonce |
| TransactionPool.TxPool.TruncateQueue | Core-Blockchain/node_src/core/tx_pool.go:1529-1571 | ends with exactly max(limit, locally owned) queued transactions, strictly by heartbeat age, with pending lists and virtual nonces untouched |
| TransactionPool.TxPool.EvictIdle | Core-Blockchain/node_src/core/tx_pool.go:409-424 | exactly the idle non-local accounts lose their queues |
| Heartbeats.BeatMeans | Core-Blockchain/node_src/core/tx_pool.go:779-888 | whatever the edit: a heartbeat only ever becomes the present time, every queue has one, it is forgotten only with an empty queue, a gain on the pending list renews it, and nothing else changes one that is there |
| TransactionPool.TxPool.ResetHead | Core-Blockchain/node_src/core/tx_pool.go:1333-1355 | the new head, and every transaction of the request offered in turn: its edits are those of turning it away, only when known, invalid or without room, or of the evictions and the insertion; none if the reset was skipped |
| PoolReorg.TakenReplays | Core-Blockchain/node_src/core/tx_pool.go:1333-1355 | the pool after the admissions is the replay of their edits |
| TransactionPool.TxPool.Truncate | Core-Blockchain/node_src/core/tx_pool.go:1242-1244 | pending lists at an exact water level if over the limit, the queue emptied by age down to its exact size, both untouched otherwise |
| TransactionPool.TxPool.FinishReset | Core-Blockchain/node_src/core/tx_pool.go:1229-1241 | the price index follows the base fee to come, if there is one, and the virtual nonces the pending lists |
| TransactionPool.TxPool.FollowHead | Core-Blockchain/node_src/core/tx_pool.go:1206-1241 | reset with the request's re-injection, promotion of every queued account and demotion of every pending one, each once and in any order, fresh virtual nonces, the base fee to come, and the heartbeats of all that |
| TransactionPool.TxPool.RunReorg | Core-Blockchain/node_src/core/tx_pool.go:1191-1248 | one critical section in full: without a request the dirty accounts are promoted and nothing else, with one the requested reset, after which all that is pending is affordable; then the exact truncation of what that left, by water level and by the heartbeats it left; the base fee; every account for which the section is clean stays steady |
| BlockTree.MeetsCanonical | Core-Blockchain/node_src/core/headerchain.go:403-435 | an index entry met on the way down makes everything below agree |
| HeaderChains.HeaderChain.Store | Core-Blockchain/node_src/core/headerchain.go:166-202 | stores the new headers with TD(h) = TD(parent) + difficulty; known ones are a prefix of the batch |
| HeaderChains.HeaderChain.TrimAbove | Core-Blockchain/node_src/core/headerchain.go:241-248 | the index loses exactly its entries above the new head |
| HeaderChains.HeaderChain.PatchBelow | Core-Blockchain/node_src/core/headerchain.go:251-262 | the new path is written down to the first number where the old index meets it, whatever the index lists |
| HeaderChains.HeaderChain.Rewrite | Core-Blockchain/node_src/core/headerchain.go:239-281 | the index after a non-extending import, entry by entry |
| HeaderChains.HeaderChain.WriteHeaders | Core-Blockchain/node_src/core/headerchain.go:150-302 | from any state imports can reach: the head moves exactly by weight, then lower height, then the coin, and never backwards; no header outweighs it; every index entry afterwards |
| HeaderChains.ImportKeeps | Core-Blockchain/node_src/core/headerchain.go:150-302 | every import keeps ancestors, total difficulties, the head ahead of all stored headers, and an index without holes from the genesis to the head's number |
| HeaderChains.CanonicalAfterMove | Core-Blockchain/node_src/core/headerchain.go:233-285 | after the head moves the index is its ancestor path if and only if it was before (batch on the head), or the old index agrees with the new path wherever the rewriting stops and the batch is new or listed |
| HeaderChains.CanonicalKept | Core-Blockchain/node_src/core/headerchain.go:233-285 | on an index in order, an import spoils it if and only if a stored header tied with the head wins the coin |
| HeaderChains.EveryRunAdvances | Core-Blockchain/node_src/core/headerchain.go:150-302 | over every run of imports no stored header is ahead of the head, and the head is never behind an earlier one |
| HeaderChains.EveryRunCanonical | Core-Blockchain/node_src/core/headerchain.go:150-302 | over every run without such a tie the index stays the head's ancestor path |
| HeaderChains.HeadStaysAhead | Core-Blockchain/node_src/core/headerchain.go:219-228 | whichever head is chosen, no stored header is ahead of it |
| HeaderChains.StoredTieExists | Core-Blockchain/node_src/core/headerchain.go:265-278 | a concrete import after which the head has moved and the canonical index is unchanged, so no longer the head's path |
| HeaderChains.HeaderChain.GetAncestor | Core-Blockchain/node_src/core/headerchain.go:403-435 | on any index imports can leave, for any hash but zero: nothing for an unknown block or beyond the budget, which the blocks off the index use up; else the block reached by parents down to where the path meets the index, and the index's entry below |
| HeaderChains.AnswersRight | Core-Blockchain/node_src/core/headerchain.go:403-435 | these answers are the block's ancestors, all of them, if and only if the index stays on its path below the number where it meets it |
| BlockChains.BlockChain.constructor | Core-Blockchain/node_src/core/blockchain.go:681-697 | a chain of one genesis block: index, lookup and total difficulty in place |
| BlockChains.BlockChain.WriteHeadBlock | Core-Blockchain/node_src/core/blockchain.go:741-768 | index, lookup and head fields after writing one head; each of its transactions gets its number |
| BlockChains.BlockChain.FindFork | Core-Blockchain/node_src/core/blockchain.go:1925-1969 | both branches down to the last common block, or an error only if a block is missing |
| BlockChains.ForkIsLast | Core-Blockchain/node_src/core/blockchain.go:1925-1969 | the common block it finds is the last: the two paths agree just up to its number |
| BlockChains.BlockChain.Reinsert | Core-Blockchain/node_src/core/blockchain.go:1987-1997 | the new branch but its head is written bottom up |
| BlockChains.BlockChain.Reorg | Core-Blockchain/node_src/core/blockchain.go:1870-2015 | prepares index and lookup for the new head; from its number on, the old index less the unbroken stretch of entries that the clean-up sweeps |
| BlockChains.LookupMoves | Core-Blockchain/node_src/core/blockchain.go:1998-2003 | deleting the old branch's transactions less the re-added ones, then writing the head, leaves exactly the new chain's lookup |
| BlockChains.LookupMeans | Core-Blockchain/node_src/core/rawdb/accessors_indexes.go:74-81 | the chain's lookup gives a number for a transaction if and only if the path's block of that number holds it |
| BlockChains.BlockChain.SetHead | Core-Blockchain/node_src/core/blockchain.go:1322-1336 | from any index that covers the head's path: it covers the new head's path, the lookup gives exactly its transactions with the numbers of their blocks, and each entry above it is an old one that no clean-up reached |
| BlockChains.BlockChain.WriteBlock | Core-Blockchain/node_src/core/blockchain.go:1304-1336 | fork choice by weight, height, preservation and coin, and the state after it, again from any such index; the head stays the heaviest block, and the lowest of those; the lookup gives exactly the head's transactions with their numbers |
| BlockChains.CanonicalIffNothingLingers | Core-Blockchain/node_src/core/blockchain.go:2004-2012 | after a move the index is canonical if and only if no old entry above the new head escapes the clean-up |
| BlockChains.TopDecides | Core-Blockchain/node_src/core/blockchain.go:2004-2012 | with the top entry of the old index: where the new one ends, and that it is canonical if and only if that top is not above a block that extends the head, or the reorganisation's clean-up starts no higher than the new head |
| BlockChains.EveryRunCovers | Core-Blockchain/node_src/core/blockchain.go:1304-1336 | over every run of head moves, stale entries or not, the index covers the head's path, the lookup lists exactly its transactions, each with the number of its block, and the index ends at the computed top |
| BlockChains.HeavyBlockLeavesStaleEntry | Core-Blockchain/node_src/core/blockchain.go:2004-2012 | a concrete reorganisation, won by height, that leaves an entry above the head on an index that was canonical |
| ChainIndexers.ChainIndexer.SetValidSections | Core-Blockchain/node_src/core/chain_indexer.go:480-492 | removes the heads of the sections given up |
| ChainIndexers.ChainIndexer.VerifyLastHead | Core-Blockchain/node_src/core/chain_indexer.go:423-430 | equals the specified roll-back |
| ChainIndexers.ChainIndexer.OnNewHead | Core-Blockchain/node_src/core/chain_indexer.go:244-299 | known and stored sections after a head or a reorganisation, checkpoint included |
| ChainIndexers.ChainIndexer.Begin | Core-Blockchain/node_src/core/chain_indexer.go:319-336 | the section and head a job starts from |
| ChainIndexers.ChainIndexer.ProcessSection | Core-Blockchain/node_src/core/chain_indexer.go:389-418 | succeeds exactly when every header read, each against its own index, continues the last; a failed backend reset empties the index |
| ChainIndexers.ChainIndexer.End | Core-Blockchain/node_src/core/chain_indexer.go:347-369 | records a completed section, only on top of the head it started from, and else rolls back |
| ChainIndexers.ChainIndexer.Sections | Core-Blockchain/node_src/core/chain_indexer.go:435-441 | only canonical sections are reported |
| ChainIndexers.StepKeeps | Core-Blockchain/node_src/core/chain_indexer.go:305-369 | every single step keeps section heads chained and the job in flight on track |
| ChainIndexers.EveryRunIsChained | Core-Blockchain/node_src/core/chain_indexer.go:244-430 | for every interleaving stored section heads form one parent-linked chain with nothing recorded above it |
| ChainIndexers.VerifyMakesCanonical | Core-Blockchain/node_src/core/chain_indexer.go:423-430 | comparing one head leaves every recorded section canonical, and removes only sections that were not |
| ChainIndexers.Beginnings | Core-Blockchain/node_src/core/chain_indexer.go:131-144 | a fresh indexer and one with a checkpoint both start chained |
| ChainIndexers.SectionRecorded | Core-Blockchain/node_src/core/chain_indexer.go:319-369 | an update without disturbance records the next section with the head the index has for it and keeps the known sections, unless the section below is a checkpointed one that is off the index, and then it gives up until the next notice |
| ChainIndexers.CatchesUp | Core-Blockchain/node_src/core/chain_indexer.go:319-376 | as many such updates as there are sections to do bring it up to all it knows, each section with its canonical head |
| ChainIndexers.NoticeMeans | Core-Blockchain/node_src/core/chain_indexer.go:269-299 | a new head makes known just the sections that end deep enough below it, given the checkpoint |
| ChainIndexers.ReorgMeans | Core-Blockchain/node_src/core/chain_indexer.go:248-268 | a reorganisation keeps just the sections that end at or below its head, and stored ones below the checkpoint |
| HashFn.HashGetter.Get | Core-Blockchain/node_src/core/evm.go:79-110 | whatever was asked before, a query answers what a fresh parent walk would, and the cache stays a prefix of the ancestor hashes |
| HashFn.WalkFinds | Core-Blockchain/node_src/core/evm.go:92-107 | the walk ends at the ancestor of the number asked for if every header above that is stored, and at nothing otherwise |
| HashFn.HashAtIsAncestor | Core-Blockchain/node_src/core/evm.go:79-110 | with all ancestors stored the answer is the ancestor of that number, and nothing for the block's own number and above |
| HashFn.PrefixWalks | Core-Blockchain/node_src/core/evm.go:92-107 | a walk may start from any cached entry |
| HashFn.Cached | Core-Blockchain/node_src/core/evm.go:89-91 | a cached answer is right even when the index wraps around |
| GasPools.GasPool.AddGas | Core-Blockchain/node_src/core/gaspool.go:30-36 | adds exactly, given that uint64 suffices |
| GasPools.GasPool.SubGas | Core-Blockchain/node_src/core/gaspool.go:40-46 | refuses exactly when too little is left |
| StateTransitions.IntrinsicGas | Core-Blockchain/node_src/core/state_transition.go:124-162 | the guarded part overflows exactly when reported, the access list wraps |
| StateTransitions.StateTransition.BuyGas | Core-Blockchain/node_src/core/state_transition.go:198-218 | needs fee cap times gas plus value, takes price times gas |
| StateTransitions.StateTransition.BuyGasMeta | Core-Blockchain/node_src/core/state_transition.go:220-238 | needs and takes the two rounded shares, feePercent in 10000 of the cost from the fee account and the rest from the sender |
| StateTransitions.StateTransition.PreCheck | Core-Blockchain/node_src/core/state_transition.go:243-296 | the first failing clause, in order |
| StateTransitions.StateTransition.RefundGas | Core-Blockchain/node_src/core/state_transition.go:424-448 | the capped refund, the money paid back, to each payer in the part it bore, and the gas returned to the pool without overflow |
| StateTransitions.StateTransition.TransitionDb | Core-Blockchain/node_src/core/state_transition.go:333-422 | fails exactly for the specified reasons, with gas and money taken exactly when the purchase went through; else computes the specified outcome and takes exactly the used gas from the pool |
| StateTransitions.Conservation | Core-Blockchain/node_src/core/state_transition.go:388-447 | money changes by exactly usedGas times (price - tip), within a wei for a meta transaction; the refund is within gasUsed/quotient; neither payer gets back more than it paid |
| Settlement.FeeAccountPays | Core-Blockchain/node_src/core/state_transition.go:220-440 | the fee account of a meta transaction ends up paying feePercent in 10000 of what the used gas costs, to within a wei |
| Settlement.SenderPays | Core-Blockchain/node_src/core/state_transition.go:220-443 | its sender pays the rest, to within a wei; the sender of a plain message pays for the used gas exactly |
| Settlement.RecipientGains | Core-Blockchain/node_src/core/state_transition.go:406-415 | the fee recorder, or without it the miner, gains the used gas times the tip; no other bystander's balance changes |
| Settlement.GasMeans | Core-Blockchain/node_src/core/state_transition.go:388-431 | the gas the EVM gets, the nonce it runs on, and the used gas after the refund: capped at a fifth, or a half before London |
| Settlement.IntrinsicMeans | Core-Blockchain/node_src/core/state_transition.go:124-162 | what every further zero and non-zero byte, address and storage key adds |
| Settlement.AcceptedMeans | Core-Blockchain/node_src/core/state_transition.go:243-387 | a message is accepted if and only if its nonce, fees, funds, gas, data and value all fit, in plain terms and in whatever order they are checked |
| Settlement.NoReplay | Core-Blockchain/node_src/core/state_transition.go:243-396 | an accepted message raises its sender's nonce past its own, and is refused as too low from then on |
| StateTransitions.BaseFeeIsBurnt | Core-Blockchain/node_src/core/types/transaction.go:613-616 | a message priced against the base fee burns exactly the base fee |
| StateTransitions.SolventAfterCharge | Core-Blockchain/node_src/core/state_transition.go:220-238 | buying gas leaves the payers solvent exactly unless one account pays both shares and cannot cover their sum |
| StateTransitions.AcceptedOverdraws | Core-Blockchain/node_src/core/state_transition.go:220-238 | an accepted message leaves a payer overdrawn after the purchase if and only if it moves no value and one account pays both shares without covering their sum |
| StateTransitions.PayerEnds | Core-Blockchain/node_src/core/state_transition.go:424-448 | what a payer has in the end: what the EVM left it, its part of the unused gas, and the tip if it is the recipient |
| StateTransitions.AcceptedEndsSolvent | Core-Blockchain/node_src/core/state_transition.go:333-422 | every other accepted message ends with its payers solvent |
| StateTransitions.OverdrawnAtTheEnd | Core-Blockchain/node_src/core/state_transition.go:333-448 | an account that pays both shares and is left alone by the EVM ends overdrawn if and only if it cannot cover what is not paid back |
| StateTransitions.OverdraftExists | Core-Blockchain/node_src/core/state_transition.go:220-238 | for any data that decodes to half of the fee paid by the sender itself, an accepted message from a solvent sender that ends overdrawn |
| StateProcessors.StateProcessor.ApplyTransaction | Core-Blockchain/node_src/core/state_processor.go:154-184 | fails exactly when the message is refused; pool plus used gas is unchanged by a transaction, and its receipt carries the running total; balances and nonces are those of the specified transition |
| StateProcessors.StateProcessor.Process | Core-Blockchain/node_src/core/state_processor.go:109-142 | succeeds if and only if no transaction, on the state its predecessors leave, has a reason to fail, and then with the state, gas and receipts of applying them in turn; else reports the first that has one, with that reason; pool plus used gas is the gas limit, cumulative gas the running sum, and money is conserved over the block |
| StateProcessors.FirstFailureUnique | Core-Blockchain/node_src/core/state_processor.go:109-142 | only one transaction is the first to end the block |
| StateProcessors.EachRunsOnce | Core-Blockchain/node_src/core/state_processor.go:109-142 | in a block that is processed to the end each sender's nonces increase, so no transaction is applied twice |
| ParallelProcessors.SequentialUnique | Core-Blockchain/node_src/core/parallel_state_processor.go:327-353 | the sequential answer, the failing index included, is unique |
| ParallelProcessors.ParallelStateProcessor.ProcessSequential | Core-Blockchain/node_src/core/parallel_state_processor.go:327-353 | the sequential answer |
| ParallelProcessors.ParallelStateProcessor.ProcessBatch | Core-Blockchain/node_src/core/parallel_state_processor.go:255-284 | one slice under its global indices |
| ParallelProcessors.ParallelStateProcessor.ProcessBatched | Core-Blockchain/node_src/core/parallel_state_processor.go:225-250 | for every batch size the sequential answer, failing index included |
| ParallelProcessors.ParallelStateProcessor.ProcessPipelined | Core-Blockchain/node_src/core/parallel_state_processor.go:286-324 | under any scheduler, stops with the receipts, logs and state of the loop that passes over failures; the sequential answer if that finishes, and else its first missing receipt is where that stops |
| ParallelProcessors.NoDeadlock | Core-Blockchain/node_src/core/parallel_state_processor.go:435-526 | until the collector is done some stage can move |
| ParallelProcessors.EveryInterleaving | Core-Blockchain/node_src/core/parallel_state_processor.go:435-526 | every schedule is bounded, never stuck, and ends with the same result, compared with the sequential answer in the same way |

## Left out

- TransactionPool.TxPool.PromoteOne: the pool holds each account's list as a value (nonce to transaction) and stores it back when the account is done; the `TxList` objects are proved separately against the same functions, so sharing of list objects is not modelled.
- TransactionPool.TxPool.AddTx: `validateTx` is a verdict handed in; its balance, signature and gas checks are not modelled.
- TransactionPool.TxPool.ResetHead: the transactions to re-inject are a parameter with `validateTx`'s verdict on each; `PoolResets` shows which they are, by hash.
- PoolResets.FindReinject: the new head's block is stored; the source would fail on a nil block otherwise.
- TransactionPool.TxPool.ClearRoom: which of the two price heaps a remote transaction is in is not part of the pool's value, so whether a transaction is outbid is stated up to that.
- Acceptance.FrontIsAccepted: plain messages only; that fees and data suit the block, which `validateTx` checks, is required.
- Acceptance.AffordsMeans: the pool checks the full cost of a meta transaction against its sender too, although BuyGas then splits it.
- StateTransitions.OverdraftExists: the encoding behind the meta-transaction prefix and its signature are not modelled; what the data decodes to is a parameter that must fit the prefix.
- PricedLists.TxPricedList.Discard: duplicate live entries, which arise when a transaction is removed and added again, are counted as often as they occur.
- PricedLists.TxPricedList.Removed: `stales` only decides when to rebuild; its exactness is not claimed, since local removals raise it and demotions do not.
- HeaderChains.HeaderChain.WriteHeaders: the exit on interruption, after which caches and database differ, and the caches themselves.
- BlockChains.BlockChain.WriteBlock: re-import of known blocks through `writeKnownBlock`, which sets the head without comparing difficulties; logs, events, the fast-sync head and state commits.
- ChainIndexers.ChainIndexer.OnNewHead: child indexers and the cascaded head; a checkpoint added while a section is processed.
- HashFn.HashGetter.Get: the stored headers do not change during the life of the closure.
- StateTransitions.StateTransition.BuyGas: messages without a fee cap, which no transaction yields.
- StateTransitions.StateTransition.TransitionDb: the EVM is a function of balances, nonces and gas that conserves money and returns at most its gas; contract storage, access lists in the state and transaction data are not part of it.
- ParallelProcessors.ParallelStateProcessor.ProcessBatched: a batch size of 0, by which the source divides, or below.
- ParallelProcessors.ParallelStateProcessor.ProcessPipelined: cancellation of the context, and the bloom filters computed beside the receipts.
- Equality of `ProcessParallel` and `Process`, which differ in validation, in the base fee given to messages and in transaction indices.
- Journals, metrics, event feeds, timers and goroutine start-up.
- Disk layout, caches, the freezer and snapshots; a batch write is atomic.
- The x402 interface, wallet lists, hex helpers and the jam index.
