# ShardMatrix: a verified model

This project models the parts of ShardMatrix (a single-shard DPoS chain written in Go) whose behaviour
is decided by state that changes over time, and proves what each of them keeps over whole runs:

- the **ledger**: hash-linked blocks, account objects debited and credited in place, the flat key-value
  store underneath, and the restart that replays the stored chain;
- the **block producer**, judged by whether the manager accepts and executes what it builds;
- the **gossip network**: TTL flooding with a seen-cache, the three outbound queues and the loop that
  drains them, and the byte limiter;
- the **transaction pool**: a hash map kept in step with a binary heap;
- the **slot clock** and the asynchronous callbacks that race to append blocks at its slots;
- the **validator set**: sorted, capped at 21, delegated to, slashed and rotated.

`dafny verify dfyconfig.toml` checks all of it.

## How the model is built

Code that changes objects in place is a class here, with the same fields and methods: `Manager`,
`LevelDBStorage`, `TransactionPool`, `BlockProducer`, `Node`, `TimeController`, `DPoSConsensus`,
`Network`, `BandwidthLimiter` and the outbound `PriorityQueue`. Each method is proved against a function
or relation on values (`Execution.AddBlock`, `Checked`, `Next`, `Step`, ...), and the whole-run results
are lemmas about those. Where the source interleaves goroutines (gossip deliveries, the drain loop
against broadcasts, block callbacks) the model is a set of enabled actions, and every result is for
every legal sequence of them.

SHA-256 (section 6.2 of FIPS 180-4) is a parameter: nothing is assumed of it but 32-byte results.
Integrity results therefore end in "equal, or here are two distinct inputs with one digest". State roots,
signatures, clock readings, random hashes, health reports and the answers of other nodes are parameters
as well. 64-bit arithmetic wraps explicitly (`Encoding.Wrap`) wherever amounts, nonces, heights or vote
powers are computed.

Files, from the bottom up: `Encoding`, `Types`, `HashChain`, `Storage`, `Execution`, `Conservation`,
`ChainIndex`, `Recovery`, `Restart`, `AfterRestart`, `Manager`, `Producer`, `Packing`; `PriorityQueue`,
`TransactionPool`, `PoolRuns`; `Gossip`, `GossipCoverage`, `GossipNode`, `GossipForwarding`, `Outbound`,
`Limiter`; `SlotClock`, `Schedule`, `NewChain`; `Dpos`, `DposRuns`, `ValidatorRecords`.

The functions the methods are proved against are themselves pinned by results that do not use them: block
and transaction digests by their byte layout, the pool's order by gas price and time stamp, each validator
operation by what it leaves in every field of every record, the produced block by its size and header, a
node's forwarding by the step of the flood it is.

## What turned out false

Where the code does not do what its comments or documents say, the model follows the code, exhibits an
input, and proves when the property does hold.

- A restart is not always possible, and does not always bring accounts back: accounts outside genesis are
  read with the values they ended the run with. An account that was paid ten comes back with twenty
  (`Restart.OutsiderComesBackDoubled`); once it has sent, the restart fails
  (`Restart.OutsiderSenderStopsRestart`). A restart succeeds exactly when all senders are genesis accounts,
  and then restores exactly those accounts that are in genesis or hold nothing (`Restart.RestartExactly`): it
  makes as much new value as was held outside genesis (`AfterRestart.ConservedThroughRestart`).
- A block that fails midway leaves its first transactions applied until the next restart
  (`Recovery.FailedBlockBreaksRecovery`); it leaves no trace exactly when its first stored transaction is
  the one that does not apply (`Recovery.FailedLeavesNoTrace`), and only then can a restart bring back every
  nonce (`AfterRestart.FailedBlockExactly`). A transaction stored after its block is applied only by a restart
  (`Recovery.LateTransactionBreaksRecovery`); storing one keeps restarts good exactly when it was stored
  before or is not on the chain (`AfterRestart.LateStoreExactly`).
- The manager skips every transaction of a block that is not in the store, and the source has no caller of
  `SaveTransaction` outside its tests: as long as nothing is stored, no block ever changes an account
  (`Conservation.NothingStoredNothingApplied`).
- A cost that wraps 64 bits mints value (`Conservation.WrappedCostMintsValue`).
- The producer filters every transaction against one state, so two stored transactions of one sender make the
  block fail in the manager (`Producer.RepeatedSenderProduced`), while unstored ones are skipped
  (`Producer.UnstoredPairAdded`). The block it builds is added exactly when no sender appears twice among its
  stored transactions (`Producer.ProducedBlockRuns`, over any run `Producer.ProducedInRun`).
- "Evict the lowest priority" removes the last heap slot; that is a lowest-priced transaction in every pool
  of up to two, and for no larger size (`TransactionPool.EvictsLowestUpToTwo`): accepted adds alone lead to a
  pool of any larger size that evicts the dearer of two (`TransactionPool.EvictDearer`). A full pool also evicts
  before the newcomer is checked, so a rejected newcomer still costs a transaction
  (`TransactionPool.TransactionPool.AddTransaction`). And every removal stamps all that stays anew: a
  transaction expires by the last rebuild, not by its arrival (`PoolRuns.ExpiresAfterLastStamp`), and removals
  that keep coming keep it (`PoolRuns.KeptByRemovals`).
- A medium-priority message can leave while a high-priority one waits (`Outbound.MediumOvertakesHigh`).
- A flood can settle without reaching a node that is within its TTL (`GossipCoverage.OvertakenFlood`): in
  networks of n nodes that is ruled out exactly by a TTL of 0 or of n - 2 and more
  (`GossipCoverage.WithinTtlExact`). Floods of every connected network of n nodes reach them all exactly
  from a TTL of n - 2 on (`GossipCoverage.CoverageExact`). And a full seen-cache can forget any entry
  (`GossipNode.FullCacheForgets`).
- The limiter admits k + 1 full buckets within k seconds, two of them one nanosecond apart
  (`Limiter.BurstAcrossRefills`).
- After a restart the slot clock counts the loaded heights twice (`Schedule.KeptTime`). Served in order, the
  callbacks keep the schedule exactly when the first slot is not right after the loaded height
  (`Schedule.RestartOnSchedule`); over all interleavings, exactly when it lies past every height the
  callbacks can reach (`Schedule.InterleavedRestart`). A block can also be appended before its time: that
  is ruled out exactly when the first slot is at least 2h + 1 at loaded height h (`Schedule.NoBlockEarly`),
  that is when height h + 1 was due at the reading that fired it (`Schedule.FirstSlotDue`), which the node
  only logs.
- A newcomer turned away by a full validator set is saved as active and is back after the next load
  (`DposRuns.EvictedNewcomerReturns`). A delegation, undelegation or slash that reorders the set saves somebody
  else's record (`DposRuns.EditedRecord`): over a run, storage stays in step with the set exactly when no such
  edit moves its validator (`DposRuns.RunInStep`). So a slash that drops a validator past its successor is
  undone by the next load (`DposRuns.SlashUndoneByLoad`). Slashing keeps its floor exactly until the slash
  count wraps past 1 (`DposRuns.SlashFloor`, `DposRuns.WrappedCountBreaksFloor`).

## Model

| member | source | states |
|---|---|---|
| Types.HeaderBytesInjective | pkg/types/types.go:139-153 | two headers have the same digest input exactly when they agree on number, timestamp, previous hash, transaction root, state root and validator |
| Types.HeaderLayout | pkg/types/types.go:139-153 | the digest input is 132 bytes: number and timestamp as little-endian words, then previous hash, transaction root, state root and validator |
| Types.ConcatInjective | pkg/types/types.go:251-262 | concatenated transaction hashes determine the list |
| Types.ConcatAt | pkg/types/types.go:251-262 | the i-th hash of the list lies at byte 32 i |
| Types.CalculateTxRoot | pkg/types/types.go:246-262 | the buffer-filling loop, with its special case for the empty list, is the digest of the concatenated hashes |
| Types.TransactionBytesInjective | pkg/types/types.go:161-181 | a transaction's digest input determines everything but its signature |
| Types.TransactionLayout | pkg/types/types.go:161-181 | shard, sender, recipient, amount, gas price, gas limit, nonce as little-endian words and addresses in this order, then the data |
| HashChain.HeightIsPosition | pkg/blockchain/manager.go:179-206 | heights of an accepted chain count its blocks: no gaps, no forks |
| HashChain.VerdictOnFields | pkg/blockchain/manager.go:179-206 | accepted exactly for the next height, the tip's digest, the list's own root and shard 1; otherwise the verdict names the first of these that fails |
| HashChain.ChainIntegrity | pkg/blockchain/manager.go:179-206 | two accepted chains with the same tip digest have the same length and agree at every height on every hashed field and the whole transaction list, or two distinct hashed strings collide |
| HashChain.UnhashedFieldsAreFree | pkg/types/types.go:139-153 | the commitment stops there: signature and adjacent hashes of any non-genesis block can be replaced without invalidating the chain or moving the tip digest |
| Encoding.DecimalInjective | pkg/storage/leveldb_storage.go:247-288 | decimal block keys never clash |
| Encoding.BE64RoundTrip | pkg/storage/leveldb_storage.go:519-547 | stored heights survive the 8-byte big-endian round trip |
| Encoding.LE64RoundTrip | pkg/types/types.go:139-153 | eight little-endian bytes stand for their word |
| Encoding.BigEndianSpelled | pkg/storage/leveldb_storage.go:535-547 | heights are stored with the highest byte first |
| Encoding.TextSpelled | pkg/storage/leveldb_storage.go:247-288 | decimal and lower-case hexadecimal text of keys |
| Storage.HashKeyInjective | pkg/storage/leveldb_storage.go:235-244 | digest keys never clash |
| Storage.KeysSpelled | pkg/storage/leveldb_storage.go:235-244 | the text of every key |
| Storage.PutBlock | pkg/storage/leveldb_storage.go:247-288 | a put of a block changes that block of the represented store and nothing in any other family of keys |
| Storage.PutHeight | pkg/storage/leveldb_storage.go:247-288 | a put under a digest changes that digest's height only |
| Storage.PutAccount | pkg/storage/leveldb_storage.go:370-386 | a put of an account changes that account only |
| Storage.PutTx | pkg/storage/leveldb_storage.go:329-345 | a put of a transaction changes that transaction only |
| Storage.LevelDBStorage.SaveBlock | pkg/storage/leveldb_storage.go:247-288 | three puts into the flat store are one update of the three block maps |
| Storage.LevelDBStorage.GetBlock | pkg/storage/leveldb_storage.go:291-310 | the flat lookup answers the represented block map |
| Storage.LevelDBStorage.GetBlockByHash | pkg/storage/leveldb_storage.go:313-326 | the block at the height recorded for the digest |
| Storage.LevelDBStorage.GetLatestBlockHeight | pkg/storage/leveldb_storage.go:519-532 | the last height written, 0 if none was |
| Storage.LevelDBStorage.SaveTransaction | pkg/storage/leveldb_storage.go:329-345 | stores the transaction under its digest, nothing else |
| Storage.LevelDBStorage.GetAccount | pkg/storage/leveldb_storage.go:389-408 | the flat lookup answers the represented account map |
| ChainIndex.RunIndexed | pkg/blockchain/manager.go:140-176 | at every state of every run: the store holds the chain by height, each digest at its last height, and the tip's number as latest height |
| ChainIndex.LookupByDigest | pkg/storage/leveldb_storage.go:291-326 | in every run, looking a stored block up by its own digest returns it exactly when no later block of the chain collides with it; the latest height is the tip's number |
| Execution.ProcessTxView | pkg/blockchain/manager.go:230-293 | executing against cached accounts with fallback to the store is executing against the store overridden by the cache |
| Execution.ProcessTxsView | pkg/blockchain/manager.go:209-227 | the same for a whole block, its partial effects on failure included |
| Recovery.VerdictOnNumbers | pkg/blockchain/manager.go:230-269 | applied exactly when the sender's balance covers the 64-bit cost and the nonce is its next; the balance is checked first |
| Conservation.TransferTotals | pkg/blockchain/manager.go:230-269 | the exact movement of value of one applied transaction, wrap-around and self-transfers included |
| Conservation.ExactAccounting | pkg/blockchain/manager.go:230-269 | an application conserves value plus fee exactly when cost and credit overflow by the same amount |
| Conservation.RunConserves | pkg/blockchain/manager.go:87-293 | over every run from a new chain, failed blocks included, with a 64-bit supply and costs that fit: balances plus fees paid equal the genesis supply, no credit wraps, every nonce is the genesis nonce plus applied sends, and every application used its sender's next nonce |
| Conservation.RunNumbers | pkg/blockchain/manager.go:230-269 | over every run, whatever supply and costs, every nonce is the genesis nonce plus applied sends, and every application used its sender's next nonce |
| Conservation.NeverAppliedTwice | pkg/blockchain/manager.go:230-269 | in no run are two transactions of one sender and one nonce applied, whatever supply and costs: no transaction twice, signed again or not |
| Conservation.NothingStoredNothingApplied | pkg/blockchain/manager.go:209-227 | over any run that stores no transaction, whatever blocks are submitted, nothing is applied and every account stays as in genesis |
| Conservation.WrappedCostMintsValue | pkg/blockchain/manager.go:230-269 | a cost of 2^64 is charged nothing and still credits its amount |
| Manager.Manager.GetAccount | pkg/blockchain/manager.go:272-293 | the cached object, else one built from the stored record or from nothing, cached; no other object is touched |
| Manager.Manager.ProcessTransaction | pkg/blockchain/manager.go:230-269 | mutating the two, possibly equal, account objects is the value-level transfer, with the same verdict |
| Manager.Manager.ProcessBlockTransactions | pkg/blockchain/manager.go:209-227 | the loop: unknown hashes skipped, the first failure stops it and leaves earlier effects |
| Manager.Manager.SaveCurrentState | pkg/blockchain/manager.go:422-431 | every cached account is stored, in whatever order the map is walked |
| Manager.Manager.AddBlock | pkg/blockchain/manager.go:140-176 | refused with the reason, failed midway with its effects kept, or executed and saved; exactly the ledger function on the old state |
| Manager.Manager.CreateNewChain | pkg/blockchain/manager.go:87-137 | the genesis block, the genesis accounts cached and stored, the indexes written |
| NewChain.NewChainHolds | pkg/blockchain/manager.go:87-137 | block 0 says number 0, the configured timestamp, the given state root, the empty transaction root, shard 1 and zeros elsewhere; the store holds it by height and digest, the configuration and the initial accounts |
| NewChain.FirstStays | pkg/blockchain/manager.go:87-137 | every chain a run builds starts with that block |
| NewChain.InitiallyListed | pkg/blockchain/manager.go:111-114 | the initial accounts are the listed ones, of several with one address the last |
| NewChain.SupplyIsListed | pkg/blockchain/manager.go:111-114 | with an address each, the supply is the sum of the listed balances |
| Manager.Manager.RebuildState | pkg/blockchain/manager.go:434-478 | the replay loop, its accounts after a missing or failing block included |
| Manager.Manager.LoadExistingChain | pkg/blockchain/manager.go:51-84 | succeeds exactly when the recovery function does, and then in its state; a failure leaves the manager as initialized as it was |
| Recovery.RecoveryMatchesLive | pkg/blockchain/manager.go:51-84 | after any run that kept its store stable and whose senders are genesis accounts, a restart succeeds with the same tip and store; genesis accounts come back as they were, all others with doubled balance |
| Recovery.RecoverNeeds | pkg/blockchain/manager.go:51-84 | a restart succeeds exactly with the configuration, every block from 0 to the latest height, and a replay of them all; its tip is the block at that height |
| Recovery.RebuiltPartly | pkg/blockchain/manager.go:434-478 | a replay that stops leaves the accounts as before a missing block, or with a failing block's first transactions applied |
| Restart.RestartExactly | pkg/blockchain/manager.go:434-478 | for any run whose failed blocks applied nothing and whose stored transactions do not change the chain's, signatures aside, a restart succeeds exactly when all senders on the chain are genesis accounts, and then an account comes back unchanged exactly when it is a genesis account or holds nothing |
| Restart.OutsiderComesBackDoubled | pkg/blockchain/manager.go:434-478 | after one block that pays an account from outside genesis ten, the restart answers twenty |
| Restart.OutsiderSenderStopsRestart | pkg/blockchain/manager.go:434-478 | after a second block in which that account sends, the run holds both blocks and the restart fails |
| Restart.ChainNonce | pkg/blockchain/manager.go:209-269 | the nonce of every account counts its sends on the chain |
| AfterRestart.ConservedThroughRestart | pkg/blockchain/manager.go:434-478 | for a stable run, a restart and any run after it: balances plus the fees of both runs are the genesis supply plus, once more, what was held outside genesis at the restart |
| AfterRestart.TotalAfterRestart | pkg/blockchain/manager.go:434-478 | a restart adds at most the balances outside genesis to the total, and exactly them exactly when doubling each fits 64 bits |
| Recovery.FailedBlockBreaksRecovery | pkg/blockchain/manager.go:209-227 | a block failing midway leaves a balance that a restart does not bring back |
| Recovery.FailedLeavesNoTrace | pkg/blockchain/manager.go:209-227 | a failed block leaves every account as it was exactly when the first of its transactions that is stored does not apply to the sender's account as it is, which is when it applied no transaction |
| Recovery.LateTransactionBreaksRecovery | pkg/blockchain/manager.go:434-478 | a transaction stored after its block was accepted is applied by the restart only |
| AfterRestart.LateStoreExactly | pkg/blockchain/manager.go:434-478 | after any stable run, storing one more transaction keeps restarts possible and good for every nonce exactly when the senders on the chain are genesis accounts and the transaction was stored before or is not listed on the chain, or it collides with the one it replaces |
| AfterRestart.LateStoreShows | pkg/blockchain/manager.go:434-478 | storing any transaction the chain lists and the store lacks makes the restart fail or changes its sender's nonce |
| AfterRestart.FailedBlockExactly | pkg/blockchain/manager.go:209-227 | after any stable run, a failed block keeps restarts possible and good for every nonce exactly when the senders on the chain are genesis accounts and the block's first stored transaction is the one that does not apply |
| Producer.ProducedBlockAccepted | pkg/blockchain/block_producer.go:163-212 | for the height above the tip, whatever branch is taken, the block passes validateBlock, keeps the slot's time, fits the size limit, and lists the digests of a prefix of the filtered transactions |
| Producer.ProducedBlockExecutes | pkg/blockchain/block_producer.go:384-445 | a block of any filtered transactions is executed by the manager exactly when no sender appears twice among those of them that are stored |
| Producer.ProducedBlockRuns | pkg/blockchain/block_producer.go:163-212 | the block the producer builds above the tip from any pending transactions, stored or not, submitted to the manager in the state the filter left, is added exactly when no sender appears twice among the stored ones it took, and fails midway otherwise |
| Producer.ProducedInRun | pkg/blockchain/block_producer.go:163-212 | the same at the end of every run from a new chain with a 64-bit supply and costs that fit, whatever the pool answers, or a pending transaction collides with a stored one |
| Producer.RepeatedSenderProduced | pkg/blockchain/block_producer.go:384-445 | two stored payments of one sender with one nonce pass filter and trial execution, are produced as one block, and the manager fails it, or they collide |
| Producer.UnstoredPairAdded | pkg/blockchain/block_producer.go:500-515 | the same two payments, pending but stored by nobody, are produced as one block that the manager adds without changing any account |
| Producer.FilterOnlyCaches | pkg/blockchain/manager.go:272-293 | the accounts the filter leaves cached change no account and no total |
| Producer.FilterIsFiltered | pkg/blockchain/block_producer.go:448-498 | what the filter lets through is affordable and next in its sender's order against the one state it reads |
| Producer.BlockProducer.FilterValidTransactions | pkg/blockchain/block_producer.go:448-498 | the append loop is the filter, and its reads cache accounts in the manager and change nothing else |
| Producer.BlockProducer.ProduceBlock | pkg/blockchain/block_producer.go:163-212 | returns exactly the block of the production function at every height, height zero included, nothing when stopped or when the previous block is missing; and the accounts it leaves cached in the manager, which is otherwise as before; `Packing.ProducedExactly` says which block that is |
| Packing.ProducedExactly | pkg/blockchain/block_producer.go:163-445 | with signing at work: nothing exactly without a block below; a block with transactions exactly when no empty block is called for and the filtered list is not empty and passes the trial, and then the list halved until 200 + 32 n bytes first fit two megabytes, under this node's signed header; otherwise an empty block that continues the state root, the system's or this node's |
| Packing.PacksEverything | pkg/blockchain/block_producer.go:384-445 | filtered transactions of distinct senders are all packed, in order, whenever they fit one block |
| Packing.DistinctSendersTried | pkg/blockchain/manager.go:361-419 | filtered transactions of distinct senders always pass the trial |
| Packing.TrialStep | pkg/blockchain/manager.go:361-419 | the trial refuses exactly what the sender's balance does not cover, and otherwise moves value as an application does |
| Packing.UnsignedOnlyForSystem | pkg/blockchain/block_producer.go:249-310 | without signatures only the system's empty blocks are produced |
| Packing.FilterExactly | pkg/blockchain/block_producer.go:448-498 | the filter keeps, in order, exactly the transactions with all fields there that their sender's account covers and whose nonce is next |
| Packing.FilterCaches | pkg/blockchain/block_producer.go:476-480 | and leaves cached exactly the senders it looked up |
| Packing.CachesWhereItFilters | pkg/blockchain/block_producer.go:163-212 | production caches accounts exactly on the branch that filters |
| PriorityQueue.Push | pkg/blockchain/transaction_pool.go:52-57 | sifting up keeps the heap and adds exactly the item, at the end if it does not outrank its parent there; no slot off the way from the end to the root changes |
| PriorityQueue.Down | pkg/blockchain/transaction_pool.go:35-67 | sifting the root down restores the heap and permutes the slice |
| PriorityQueue.Pop | pkg/blockchain/transaction_pool.go:59-67 | takes the root, keeps the heap and every other item |
| PriorityQueue.RootRanksFirst | pkg/blockchain/transaction_pool.go:37-44 | nothing in a heap ranks before its root: the root's price is higher, or equal and its stamp no later |
| TransactionPool.TransactionPool.AddTransaction | pkg/blockchain/transaction_pool.go:116-156 | every outcome and the exact pool it leaves, the eviction before validation and its new stamps included, and where the newcomer goes if it does not outrank its parent; map and heap stay in step |
| TransactionPool.ChecksStandAlone | pkg/blockchain/transaction_pool.go:253-278 | whatever the other fields, a transaction is refused exactly for an empty address, amount, gas price, gas limit or signature, or a shard other than 1 |
| TransactionPool.TransactionPool.RebuildPendingQueue | pkg/blockchain/transaction_pool.go:293-305 | a heap holding exactly the map's transactions once each, every one stamped with a clock reading taken in the rebuild |
| TransactionPool.TransactionPool.RemoveTransaction | pkg/blockchain/transaction_pool.go:180-195 | removes exactly the transaction with this digest and stamps all others anew; an unknown digest changes nothing |
| TransactionPool.TransactionPool.RemoveTransactions | pkg/blockchain/transaction_pool.go:198-207 | removes exactly the listed digests; all others are stamped anew, by exactly as many readings as the rebuilds take, or nothing changed |
| TransactionPool.TransactionPool.EvictLowestPriority | pkg/blockchain/transaction_pool.go:280-290 | removes the transaction of the last heap slot and stamps all others anew; from two on, one that nothing outranks stays |
| TransactionPool.EvictsLowestUpToTwo | pkg/blockchain/transaction_pool.go:280-290 | the last slot is a lowest-priced one in every pool of n transactions exactly when n is at most two, or else here are two colliding transactions |
| TransactionPool.FillUnluckily | pkg/blockchain/transaction_pool.go:116-156 | on any clock that does not go back, accepted adds alone fill a pool of any size above two so that its last slot is dearer than the one beside it |
| TransactionPool.EvictDearer | pkg/blockchain/transaction_pool.go:280-290 | eviction from it removes the dearer transaction and keeps the cheaper |
| TransactionPool.TransactionPool.GetPendingTransactions | pkg/blockchain/transaction_pool.go:210-236 | min(k, size) distinct transactions, each of a higher gas price than the next or of the same and stamped no later; likewise before every one left out; pool unchanged |
| TransactionPool.TransactionPool.CleanupExpiredTransactions | pkg/blockchain/transaction_pool.go:338-366 | removes exactly the entries older than the lifetime at the first clock reading, and stamps all others anew if there were any, by exactly as many readings as the rebuilds take |
| PoolRuns.ExpiresAfterLastStamp | pkg/blockchain/transaction_pool.go:293-366 | over any run of pool operations on a clock that does not go back, a clean-up keeps a transaction if it comes within the lifetime of the start of the last operation that stamped it, and removes it if later than that after that operation's last reading |
| PoolRuns.LastStamp | pkg/blockchain/transaction_pool.go:116-156 | every transaction that came into the pool during a run has such a last operation |
| PoolRuns.Serve | pkg/blockchain/transaction_pool.go:116-392 | whatever operations a pool is given, in whatever order, each leaves the queue, stamps all of it anew, or adds one item: they make such a run |
| PoolRuns.KeptByRemovals | pkg/blockchain/transaction_pool.go:180-207 | rounds of another transaction coming and going keep a transaction through any number of clean-ups, each within the lifetime of the removal before it, however long ago it arrived |
| PoolRuns.LeftToExpire | pkg/blockchain/transaction_pool.go:338-366 | left alone, it is removed by a clean-up exactly when that comes past the lifetime |
| TransactionPool.TransactionPool.HasExpired | pkg/blockchain/transaction_pool.go:338-366 | the inner scan finds a digest exactly when its item is older than the lifetime |
| TransactionPool.TransactionPool.Clear | pkg/blockchain/transaction_pool.go:384-392 | empties map and queue |
| Gossip.GossipSafety | pkg/network/network.go:488-540 | over every interleaving with lost sends and a cache that keeps its entries: every node handles the message once at most, TTL plus hops is constant, handlers lie within TTL0 + 1 hops, and only the originator's own sends carry the full TTL, so it never forwards its message |
| Gossip.SendBound | pkg/network/network.go:238-263 | with a perfect cache a flood crosses each connection once at most in each direction |
| Gossip.FloodTerminates | pkg/network/network.go:499-511 | however caches forget, at most d * (d + 1)^TTL0 copies are ever delivered or lost |
| GossipCoverage.FloodCovers | pkg/network/network.go:531-540 | with nothing lost and TTL0 at least the number of nodes minus two, a settled flood has reached every connected node |
| GossipCoverage.CoverageExact | pkg/network/network.go:499-511 | every settled flood of every connected network of n nodes reaches them all exactly when TTL0 is at least n - 2 |
| GossipCoverage.SettledFlood | pkg/network/network.go:531-540 | every network has a settled flood with nothing lost |
| GossipCoverage.WithinTtlExact | pkg/network/network.go:499-511 | every settled flood of every network of n nodes, nothing lost, reaches every node within TTL0 + 1 hops exactly when TTL0 is zero or at least n - 2 |
| GossipCoverage.OvertakenFlood | pkg/network/network.go:499-511 | for every other TTL0 and n a network and a settled flood, nothing lost, that misses a node within the TTL, overtaken by a copy that ran out |
| GossipCoverage.OvertakenFloodMissesNode | pkg/network/network.go:499-511 | the smallest such case: four nodes, a TTL of one, and a node two hops away that is never reached |
| GossipNode.Network.CleanExpiredCache | pkg/network/network.go:266-273 | the deleting loop leaves exactly the unexpired entries |
| GossipNode.Network.IsDuplicateMessage | pkg/network/network.go:238-263 | duplicate exactly when an unexpired entry is there; a new message is recorded with its time; a full cache is first cut to half its limit |
| GossipNode.Network.ForwardMessage | pkg/network/network.go:531-540 | exactly the peers that are healthy, connected and not the sender |
| GossipNode.Network.Receive | pkg/network/network.go:488-513 | handled exactly when not known; passed on with one TTL less exactly when handled, TTL positive and not this node's own |
| GossipNode.Network.SendToPeers | pkg/network/network.go:713-723 | exactly the peers that are healthy and connected |
| GossipForwarding.ReceiveCopy | pkg/network/network.go:488-540 | receiving a copy is a delivery the flood allows: handled exactly when the flood handles it, never sent back over the connection it came by, passed on with the flood's TTL, and over every other connection where all are healthy |
| GossipForwarding.SendOwn | pkg/network/network.go:713-723 | sending a message of one's own is an origination the flood allows, over every connection where all are healthy |
| GossipNode.CheckKeepsBound | pkg/network/network.go:238-263 | no check lets the cache outgrow its limit |
| GossipNode.DuplicateIffUnexpired | pkg/network/network.go:238-273 | over runs without eviction, a handled message is a duplicate later exactly until its first entry expires: duplicates do not refresh it |
| GossipNode.FullCacheForgets | pkg/network/network.go:251-260 | a full cache may evict any entry, whose message is then handled again |
| Outbound.NothingLost | pkg/network/network.go:543-593 | at every step of every interleaving of broadcasts and the loop, each offered message is sent, queued, held by the loop, dropped, or on its way to its queue, exactly once |
| Outbound.QueuesInOrder | pkg/network/network.go:667-710 | no queue outgrows its capacity of 1000, 5000 or 10000 or holds another priority's messages, and high-priority messages leave in the order they were accepted |
| Outbound.KindsByPriority | pkg/network/network.go:43-52 | blocks and validator changes are high, transactions, heartbeats, pings and pongs medium, the rest low |
| Outbound.QueueFills | pkg/network/network.go:179-185 | the capacities of 1000, 5000 and 10000 are reached without a drop |
| Outbound.FirstInFirstOut | pkg/network/network.go:543-593 | a step leaves a queue, takes its front or adds at its end, a message put back included |
| Outbound.HeldIsHandedOn | pkg/network/network.go:568-590 | with nothing above it waiting a held message is sent, unless it is low and congestion is 0.8 or more: then it is dropped |
| Outbound.SendDiscipline | pkg/network/network.go:543-593 | a low message leaves only past two empty queues; a medium one past a waiting high one only in the select that holds a low message and picks the medium |
| Outbound.MediumPassesHigh | pkg/network/network.go:563-581 | conversely that select does send the medium message and leave the high one waiting |
| Outbound.MediumOvertakesHigh | pkg/network/network.go:563-581 | a run in which that happens |
| Outbound.PriorityQueue.Broadcast | pkg/network/network.go:667-710 | accepted exactly when within bandwidth and below capacity, dropped and counted otherwise |
| Outbound.PriorityQueue.Put | pkg/network/network.go:679-706 | a non-blocking send: queued exactly below capacity, else dropped and counted |
| Outbound.PriorityQueue.DrainOnce | pkg/network/network.go:543-593 | one uninterrupted iteration of the loop is take, inspect and put back of the step model, and sends one message at most |
| Limiter.BandwidthLimiter.CheckBandwidth | pkg/network/network.go:869-894 | refill, charge and answer as the step function says; tokens stay between zero and the bucket |
| Limiter.BytesPaidFor | pkg/network/network.go:869-894 | bytes admitted over any run are paid from the initial tokens and the refills |
| Limiter.MessagesPaidFor | pkg/network/network.go:880-891 | every message admitted costs a token, an empty one too |
| Limiter.AdmitsExactly | pkg/network/network.go:875-891 | admitted exactly when what is left, or a full bucket from one second after the last refill on, covers its bytes, and at least one |
| Limiter.AdmittedPerRefill | pkg/network/network.go:869-894 | between refills no more than the bucket is admitted |
| Limiter.SpanBound | pkg/network/network.go:869-894 | with a monotone clock, any span shorter than k seconds of any run admits at most k + 1 buckets |
| Limiter.BurstAcrossRefills | pkg/network/network.go:869-894 | that bound is met for every k, the first two buckets one nanosecond apart |
| SlotClock.SlotAdjunction | pkg/consensus/time_controller.go:152-169 | a slot has come exactly when its time has |
| SlotClock.SlotRoundTrip | pkg/consensus/time_controller.go:152-169 | number of time of n is n exactly from the offset on |
| SlotClock.FiresAreRecords | pkg/consensus/time_controller.go:122-149 | a slot fires exactly when a reading falls in it and it lies past the offset and past every earlier reading's slot |
| SlotClock.FiresRiseOnTime | pkg/consensus/time_controller.go:122-149 | for any readings, fired numbers rise strictly, each with its exact slot time, at a reading within its own slot and so never early |
| SlotClock.GuardIsRedundant | pkg/consensus/time_controller.go:140-146 | the time guard in the loop never holds a slot back |
| SlotClock.NoSlotSkipped | pkg/consensus/time_controller.go:122-149 | readings that advance by at most two seconds, or go back, skip no slot between first and last fire |
| SlotClock.ThreeSecondsSkip | pkg/consensus/time_controller.go:122-149 | two seconds is the limit: three skip a slot for every clock |
| SlotClock.TimeController.TimeControlLoop | pkg/consensus/time_controller.go:122-149 | the loop with its memory, in int64 and uint64; while nothing overflows it fires the slots of the unbounded loop |
| SlotClock.MachineLoopExact | pkg/consensus/time_controller.go:122-169 | while elapsed seconds and slot numbers fit their words, 64-bit slot arithmetic fires the same slots |
| SlotClock.TimeController.SetGenesisTime | pkg/consensus/time_controller.go:36-51 | refused once started; otherwise the even second at or just before the one given |
| SlotClock.TimeController.SetBlockOffset | pkg/consensus/time_controller.go:54-64 | refused once started |
| SlotClock.TimeController.ValidateSequence | pkg/consensus/time_controller.go:350-370 | in 64 bits: accepted exactly when every timestamp is its slot's own and each slot, counted from the offset, is the one after its predecessor's modulo 2^63 |
| SlotClock.FollowsIsSuccession | pkg/consensus/time_controller.go:350-370 | which short of 2^63 slots past the offset is plain succession |
| Schedule.FreshRunOnSchedule | pkg/node/node.go:388-479 | for every interleaving of asynchronous callbacks, skipped slots and failed signatures in a fresh run, the chain stays linked without gaps and every block n has timestamp genesis + 2n |
| NewChain.FreshRunFromConfiguration | pkg/node/node.go:388-479 | for every interleaving from a new chain: block 0 is the configured one, block n has the configured timestamp plus 2 n and links to its predecessor, and past block 0 each is an empty block of this node, signed, with the genesis state root |
| Schedule.NeverAheadOfClock | pkg/node/node.go:388-479 | fresh or restarted, the chain only grows and never passes the last fired slot |
| Schedule.NoBlockEarly | pkg/node/node.go:388-479 | for every interleaving and all clock readings, no block is appended before some reading has reached its time, exactly when the first fired slot is at least 2h + 1 at loaded height h: always in a fresh run |
| Schedule.FirstSlotDue | pkg/node/node.go:196-205 | that is exactly when the height after the tip was due at the reading that fired it, the condition the node checks at start-up and only logs |
| Schedule.ChoiceOnTime | pkg/node/node.go:388-415 | a callback always chooses the height above the tip it read, with the right time exactly when it moved or its fired time was right |
| Schedule.ChoiceWithoutBlocks | pkg/node/node.go:388-415 | without a tip the fired slot is kept, without block 0 its time |
| Schedule.UndisturbedAppends | pkg/node/node.go:418-479 | a callback that is not disturbed always appends one block, at the next height and the time it chose |
| Schedule.KeptTime | pkg/consensus/time_controller.go:163-169 | a slot fired by a clock with offset h has its height's scheduled time exactly when h is zero |
| Schedule.RestartOnSchedule | pkg/node/node.go:157-213 | after a restart at height h, callbacks in order: one block each, and all on schedule exactly when h is zero or the first fired slot is at least h + 2 |
| Schedule.InterleavedRestart | pkg/node/node.go:388-479 | after a restart, every interleaving of the callbacks of k fired slots keeps the schedule exactly when nothing had been loaded past block 0 or the first slot is at least the chain's length plus k |
| Schedule.OvertakenSlotOffSchedule | pkg/node/node.go:388-479 | for every loaded chain and every fired list whose first slot lies within reach, an interleaving that puts a block off schedule |
| Schedule.Node.SyncTimeController | pkg/node/node.go:157-213 | takes the tip's height as offset, and as genesis block 0's time, one second less where that is odd and not set already |
| Schedule.Node.OnBlockTime | pkg/node/node.go:388-479 | chooses, builds and appends through the manager; produces exactly the block that was accepted |
| Dpos.NextKeepsInv | pkg/consensus/dpos.go:98-402 | every operation, loading included, keeps addresses distinct, the list sorted by vote power, and vote power equal to stake plus delegation for every member and every record ever saved |
| Dpos.PlainSum | pkg/consensus/dpos.go:240-248 | which is the unwrapped sum exactly where the sum fits 64 bits |
| Dpos.DPoSConsensus.SortValidators | pkg/consensus/dpos.go:142-146 | the same validators, highest vote power first |
| Dpos.DPoSConsensus.FindSlot | pkg/types/types.go:214-221 | the first slot with this address, or none |
| Dpos.DPoSConsensus.AddValidator | pkg/consensus/dpos.go:230-274 | refused if present or below the minimum stake; else sorted in, everybody past 21 saved inactive, the newcomer saved |
| Dpos.DPoSConsensus.RemoveValidator | pkg/consensus/dpos.go:277-304 | marked inactive in place and saved |
| Dpos.DPoSConsensus.DelegateTo | pkg/consensus/dpos.go:307-331 | the slot's edit, a sort, and a save of whatever the slot then holds |
| Dpos.DPoSConsensus.UndelegateFrom | pkg/consensus/dpos.go:334-363 | refused beyond what is delegated; else the same |
| Dpos.DPoSConsensus.SlashValidator | pkg/consensus/dpos.go:366-402 | a tenth of the stake for the first two counts, inactive from the third |
| Dpos.DPoSConsensus.AutoAdjust | pkg/consensus/dpos.go:747-790 | deactivates the unresponsive after 120 s, reactivates the responsive within 60 s, saves exactly the changed records |
| Dpos.DPoSConsensus.LoadValidatorSet | pkg/consensus/dpos.go:98-139 | exactly the saved records, sorted, or this node alone if there are none |
| Dpos.DPoSConsensus.GetActiveValidators | pkg/consensus/dpos.go:164-172 | the active ones, in order |
| Dpos.DPoSConsensus.GetCurrentValidator | pkg/consensus/dpos.go:149-161 | the active validator at height modulo their number |
| Dpos.DPoSConsensus.IsValidator | pkg/consensus/dpos.go:175-181 | active member |
| Dpos.DPoSConsensus.IsCurrentValidator | pkg/consensus/dpos.go:184-191 | leads this height |
| DposRuns.RunKeepsInv | pkg/consensus/dpos.go:98-402 | that invariant at every state of every run, reloads included |
| ValidatorRecords.AfterSlash | pkg/consensus/dpos.go:366-402 | one count more; below three a tenth of the stake goes, from three on the validator is inactive; delegation and identity stay, and so does everybody else's record |
| ValidatorRecords.ActiveAfterRun | pkg/consensus/dpos.go:230-402 | over any run without loads and adjustments a member is active exactly when it was at the start, was not removed, and was not slashed or its count is below three |
| ValidatorRecords.SlashedOut | pkg/consensus/dpos.go:366-402 | so from the third count on a slashed validator is no active member and leads no height |
| ValidatorRecords.AfterDelegate | pkg/consensus/dpos.go:307-331 | the delegation grows by the amount, vote power follows, nothing else changes for anybody |
| ValidatorRecords.AfterUndelegate | pkg/consensus/dpos.go:334-363 | refused exactly for a stranger or beyond what is delegated; else the delegation shrinks by the amount and nothing else changes |
| ValidatorRecords.AfterRemove | pkg/consensus/dpos.go:277-304 | only activity ends, and the record is saved so |
| ValidatorRecords.AfterAdjust | pkg/consensus/dpos.go:747-790 | only activity changes: it ends when unresponsive for more than 120 seconds and returns when responsive within 60 |
| ValidatorRecords.AdjustSaves | pkg/consensus/dpos.go:747-790 | and exactly the changed records are saved, each once |
| ValidatorRecords.AfterAdd | pkg/consensus/dpos.go:230-274 | refused exactly if present or below a stake of 10000; the newcomer is active with the power of stake and delegation, nobody's record changes, at most 21 stay |
| ValidatorRecords.AfterFirstLoad | pkg/consensus/dpos.go:98-126 | an empty storage loads as this node alone, active, with a stake of a million |
| DposRuns.AddKeepsTop | pkg/consensus/dpos.go:230-274 | a successful AddValidator leaves exactly the top min(21, n) by vote power of the old set plus the newcomer; the rest are saved inactive |
| DposRuns.NewcomerRank | pkg/consensus/dpos.go:253-272 | whether a newcomer gets in is decided by the 21st place; either way it is saved as active |
| DposRuns.LoadedRecord | pkg/consensus/dpos.go:98-139 | after loading every address has its saved record, and the members are the active ones |
| DposRuns.EvictedNewcomerReturns | pkg/consensus/dpos.go:98-139 | so one turned away is an active member after the next load |
| DposRuns.EditedSlot | pkg/consensus/dpos.go:307-331 | a changed record keeps its slot strictly between its neighbours' powers and loses it strictly past one of them |
| DposRuns.DelegateRecord | pkg/consensus/dpos.go:307-331 | the saved record of a delegated validator is current while it stays below its predecessor and stale once it passes it |
| DposRuns.EditedRecord | pkg/consensus/dpos.go:307-402 | any edit that changes a record saves the new one while its power stays strictly between its neighbours', and leaves the old one saved once it passes either |
| DposRuns.UndelegateRecord | pkg/consensus/dpos.go:334-363 | an undelegated validator's saved record is current while it stays above its successor and stale once it drops past it |
| DposRuns.SlashRecord | pkg/consensus/dpos.go:366-402 | likewise a slashed one's |
| DposRuns.SlashUndoneByLoad | pkg/consensus/dpos.go:98-139 | so the next load brings the unslashed record back |
| DposRuns.StepInStep | pkg/consensus/dpos.go:98-402 | from storage that has every member's current record, any operation leaves it so exactly when it is refused, or is no delegation, undelegation or slash, or leaves the record it changed in its slot |
| DposRuns.RunInStep | pkg/consensus/dpos.go:98-402 | over any run from there, storage has every member's current record at every state exactly when every such edit of the run keeps its slot |
| DposRuns.OneLeader | pkg/consensus/dpos.go:149-191 | at each height exactly one address leads, and it is an active validator |
| ValidatorRecords.LeaderByRank | pkg/consensus/dpos.go:149-172 | the leader of height h is the one active validator with h mod n active ones ranked before it |
| ValidatorRecords.MemberIsActive | pkg/consensus/dpos.go:175-181 | an address is a member exactly when an active record carries it |
| DposRuns.LeaderRotation | pkg/consensus/dpos.go:149-191 | over k times n consecutive heights, starting anywhere, each of the n active validators leads exactly k times and nobody else does |
| DposRuns.OnlySlashTouches | pkg/consensus/dpos.go:230-402 | reloads aside, only slashing a member changes its stake or slash count, whatever the sorts do to its slot |
| DposRuns.StakeAfterRun | pkg/consensus/dpos.go:366-402 | over any run without a reload, a member's stake is what its own slashes made of it, and the guard for small stakes never fails |
| DposRuns.AtMostTwoReductions | pkg/consensus/dpos.go:366-402 | the stake is reduced twice at most exactly while the count does not wrap past 1 again |
| DposRuns.SlashFloor | pkg/consensus/dpos.go:366-402 | at least 81 percent of an admitted stake is left exactly while slash count plus slashes stays below 2^64 + 2, and then at least 8100 |
| DposRuns.WrappedCountBreaksFloor | pkg/consensus/dpos.go:366-402 | with the greatest slash count at admission three slashes in a row reduce |

## Left out

- HTTP API, monitoring, configuration files and command lines (`pkg/api`, `pkg/monitoring`, `pkg/config`, `cmd`): plumbing.
- Ed25519 and key handling: signing is a function of the header that may fail; signatures are never verified by the code modelled here.
- The state root: it depends on the iteration order of a Go map, so it is a value chosen outside.
- The synchronizer, whose download is a stub, and the three-layer validator, whose layers are single comparisons.
- The weighted float scores of node health and consensus modes: `AutoAdjust` takes the responsiveness they yield as input; the congestion level the drain loop reads is an input too.
- TCP, JSON (decoding inverts encoding), LevelDB errors, file I/O, background checkpoints and byte statistics.
- Mutexes: a locked method is one step. Unsynchronised counters of the network are incremented atomically here.
- The pool's `queued` map, which nothing fills, and the heap's `Index` fields, which nothing reads; the pool's items are values, so the sharing of items between the copied and the live heap, harmless but for `Index`, is not shown.
- Block saves, pool clean-up and the channel of the producer after a block is built, and its reports.
- Health-driven changes of a peer's state: the connections healthy at a send are chosen freely instead.
- Gossip.GossipSafety: follows one message ID; different messages share nothing but the bounded cache, whose evictions are in `GossipNode`.
- GossipCoverage.FloodCovers: for floods with no lost send, no failed connection and no forgotten entry.
- HashChain.ChainIntegrity: for chains of up to 2^64 blocks, after which heights repeat.
- NewChain.FreshRunFromConfiguration: for fewer than 2^64 - 1 actions.
- Packing.PacksEverything: for a supply below 2^64 and costs that fit; a list whose trial fails gives an empty block whatever its transactions.
- PriorityQueue.Down: which of equal children moves up is Go's choice, but the arrangement below the root after a pop is not described further.
- Conservation.NeverAppliedTwice: for up to 2^64 applications, after which nonces repeat.
- Restart.RestartExactly: for runs of fewer than 2^64 events and transactions, and not for runs with a block that failed after applying something; a replay up to height 2^64 - 1 would not end in the source.
- Schedule.RestartOnSchedule: for fewer than 2^63 blocks.
- Schedule.NoBlockEarly: for chains loaded below 2^64 blocks, and clock readings that are unbounded integers.
- Producer.ProducedBlockRuns: for a supply below 2^64 and stored transactions whose costs fit; `Conservation.WrappedCostMintsValue` is what the others do.
- AfterRestart.ConservedThroughRestart: while what is held and what is held outside genesis stay below 2^64 together; `AfterRestart.TotalAfterRestart` says what wrapping does to the total.
- AfterRestart.LateStoreExactly: for fewer than 2^64 events and transactions; likewise `AfterRestart.FailedBlockExactly`.
- DposRuns.SlashFloor: for fewer than 2^64 - 1 slashes, and as long as the set is not loaded again: see `DposRuns.SlashUndoneByLoad`.
- SlotClock.FiresAreRecords: on unbounded integers, like the other results on the loop; `SlotClock.MachineLoopExact` says when the 64-bit loop is that loop.
- DposRuns.LeaderRotation: for height ranges that do not wrap past 2^64.
- Schedule.InterleavedRestart: for fewer than 2^63 blocks and slots.
- DposRuns.EditedSlot: leaves the order of equal vote powers open, as the library's sort does.
- Schedule.Node.SyncTimeController: for stores that hold block 0; without it the source dereferences a missing block.
- Schedule.Node.OnBlockTime: one callback with no other in between; interleaved callbacks are the actions of `Schedule`, built from the same functions.
- Outbound.PriorityQueue.DrainOnce: one iteration with no broadcast in between, likewise.
- Validator, checkpoint and health keys of the store: validator records are a map of their own in `Dpos`.
- The consensus object's block validation, a conjunction of membership, leadership, signature and time checks modelled apart; its round counter and safety mode.
