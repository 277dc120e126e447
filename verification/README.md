# Alphabill: state tree, transaction execution and root chain consensus in Dafny

This project models the hard core of the Alphabill node and proves properties of it for all inputs,
all runs and all reachable states.  `dafny verify dfyconfig.toml` checks everything.

## What is modelled

**State.**  `Avl` is the AVL tree as a value, with the depth field, the clean bit and the cached
summary that the program keeps; it refines a map, and its incremental hash refines a recomputation.
`AvlHeap` is the same tree as mutable nodes that several tree versions share: clean nodes are copied
before they are written, dirty ones are written in place.  `Store` says what a state means (a stack of
ledgers), and `StateHeap.State` is the state object with its savepoints, shown to behave like it.
`Summaries` says what the root summary means: the value of all bills, and a hash that pins down every unit.
`Clones` is copy-on-write isolation for two copies changed in any interleaving.  `Proofs` builds unit
state proofs, `Recovery` the state file, `Crc` its checksum reader, and `Genesis` the state that was read
from a file without a certificate.

**Transactions.**  `Fees`, `TxBuffer` and `TxSystem` are gas, duplicate suppression and the execution
of a transaction around arbitrary handlers.  `Transactions` gives the meaning of the money and token
handlers and of state locks; `Handlers` runs them, with their loops, on the state object.  `Outcomes` states
what each kind demands and does, `Unlocking` who decides about a transaction on hold, `Consent` whose consent a
change needs and why nothing works twice, and `Logging` that all changes are logged.  `Locking`, `Effects`,
`LockSafety`, `Sums`, `Conservation` and `Runs` carry the theorems about locks, value, fee credit and
redemption over whole runs, and `Partition` shows that the code on the shared trees makes steps of such runs.

**Consensus.**  `TrustBase` holds validators and stakes.  `Consensus` is the two-chain commit protocol
as a step system with Byzantine validators, crashes, and certificates that a validator assembles by
counting votes.  `Network` is the consensus manager: validators with their last TC, highest QC and collected
votes, the messages between them, and what each does with a message; every run of it is a run of the
protocol.  `Progress` shows what honest validators can always do by themselves, `Standstill` when they cannot,
`Disagreement` when agreement fails, and `Roots` that what is certified and committed is what was executed.
`SafetyRules`, `VoteRegister`, `Pacemaker` and `BlockStore` are the objects of a validator; what they sign,
assemble, hold and commit is what the step system is about.  `QuorumBuffer` is the shard certification vote
counter.

## Hypotheses

- Hashes are collision free: a digest is a term that contains what was hashed.  Signatures are
  unforgeable: one exists if and only if its owner made it.
- For agreement: every quorum by stake shares an honest validator with every quorum, by stake or by number;
  where certificates that were only counted commit, any two quorums do.  Both are so when twice the quorum
  threshold exceeds the stake of all root validators plus that of the Byzantine ones, and every validator has
  a stake of at least one (`TrustBase.StakedQuorumsMeet`).
- The network may lose, delay, repeat and reorder messages.  Byzantine validators send what they like and may
  attach other certificates to what somebody else signed.  Every validator has the blocks that it needs, and
  executing a block leads all of them to the same state root.
- Safety storage is durable and does not fail; a validator compares the QC of a proposal with its own
  state root, so it knows the genesis root.
- Identifiers generated for different transactions, or for different outputs of one, differ from each
  other and from all existing ones; a transaction is processed at most once (`TxBuffer` proves when).
- Owner, minting and unlock predicates are an oracle that may answer differently for every step; the
  dust collector's predicate and the always-false predicate are never satisfied.  A transaction proof
  verifies exactly for a transaction that succeeded earlier in the run.
- No more fee credit is reclaimed than was transferred; that is kept by the fee credit records, together with
  the partitions that closed them.
- The hash tree over a unit's log splits at the largest power of two below its length.

## Where a promise does not hold

- A timeout vote is not always counted in the round it is for; `Pacemaker.RegistrationRound` gives the
  exact condition and `Pacemaker.CountedInAnotherRound` an instance.
- A state file does not always restore the root hash; `Recovery.RecoveredHash` gives the exact condition.
- A transaction can get into two blocks when a reverted round is made again;
  `TxBuffer.AtMostOnce` and `TxBuffer.OtherwiseTwice` give the exact condition.
- A failed commit can leave the block tree without its root; `BlockStore.BlockTree.Commit` gives the
  exact condition.
- An assembled certificate need not verify, because votes are counted and stakes are verified, and because
  timeouts for different epochs are collected together: `VoteRegister.Register.InsertVote` and
  `VoteRegister.Register.InsertTimeoutVote` give the exact conditions.
- Validators act on certificates that they only counted, so agreement needs more than a quorum of stake:
  `Disagreement.AgreesExactly` gives the exact condition on the trust base and
  `Disagreement.UnevenDisagrees` an instance.
- A validator attaches the last TC that it assembled to everything it sends, and a receiver refuses what
  carries a TC that does not verify.  So a single Byzantine timeout for another epoch can stop all honest
  validators, who cannot go on by themselves then: `Standstill.ProgressExactly` gives the exact condition,
  `Standstill.CanJam` the runs and `Standstill.OneIsEnough` an instance.  `Progress.NeverStuck` says from
  which states honest validators always get on.
- A no-operation on hold can be lost without its predicates being asked; `Unlocking.LocksObeyed` says exactly
  when.  Some transactions carry nothing that would stop them a second time; `Consent.RepeatsExactly` says
  which, and only the buffer of executed transactions stops them.
- The cost of gas wraps around close to 2^64; `Fees.CostExactly` gives the exact condition.
- A unit proof made from a state that was read from a file need not evaluate to the root;
  `Proofs.CreateUnitStateProof` and `Recovery.RecoveredProof` give the exact conditions.  Asking for entry 0
  of a unit with an empty log reads beyond the log (state/state.go:400).
- After a file without a certificate was read, a revert does not always undo what was done since, and whether
  it does depends on when the tree was hashed; `Genesis.RevertUndoes` gives the exact condition.

Comments in the code disagree with it in two places, and the model follows the code: fee credit records
are deleted at round start whether or not they are locked (txsystem/generic_tx_system.go:158-182), and
the last TC of a timeout message may be present when the high QC is for the round before
(network/protocol/abdrc/timeout.go:20).

## Model

| member | source | states |
|---|---|---|
| `Avl.RotateBalances` | tree/avl/tree_add.go:54-72 | a node whose children are correct AVL trees with depths at most two apart is rebalanced to height difference at most one, with exact depth fields, single and double rotations alike; the depth of the result is pinned down |
| `Avl.RotateSorted` | tree/avl/tree_add.go:54-100 | rotations keep search order within the same bounds |
| `Avl.RotateLookup` | tree/avl/tree_add.go:54-100 | rotations keep what is found under every key |
| `Avl.RotateBits` | tree/avl/tree_add.go:74-100 | rotations keep clean bits downward closed and every cached summary right, although they copy clean nodes and drop their caches |
| `Avl.InsertCorrect` | tree/avl/tree_add.go:24-52 | inserting keeps order, exact depths and balance; it fails exactly on a present key; the depth grows by at most one |
| `Avl.InsertLookup` | tree/avl/tree_add.go:24-52 | after an insert the new key finds the new unit and every other key what it found before |
| `Avl.InsertBits` | tree/avl/tree_add.go:24-52 | inserting keeps clean bits and caches consistent and leaves a dirty root |
| `Avl.UpdateCorrect` | tree/avl/tree_update.go:20-45 | updating keeps shape, order and depths and fails exactly on a missing key |
| `Avl.UpdateLookup` | tree/avl/tree_update.go:20-45 | after an update only the updated key finds something else |
| `Avl.UpdateBits` | tree/avl/tree_update.go:20-45 | updating keeps clean bits and caches consistent |
| `Avl.ReplaceCorrect` | tree/avl/tree_delete.go:73-99 | cutting the predecessor out of the left subtree leaves a balanced, ordered tree at most one level lower, and the predecessor is its largest key |
| `Avl.ReplaceLookup` | tree/avl/tree_delete.go:73-99 | the remaining tree and the cut node together hold exactly the entries of the subtree |
| `Avl.ReplaceBits` | tree/avl/tree_delete.go:73-99 | the extraction keeps clean bits and caches consistent |
| `Avl.RemoveCorrect` | tree/avl/tree_delete.go:18-71 | removing keeps order, exact depths and balance, in all four cases at the removed node; it fails exactly on a missing key; the depth shrinks by at most one |
| `Avl.RemoveLookup` | tree/avl/tree_delete.go:18-71 | after a removal the key is gone and every other key finds what it found before |
| `Avl.RemoveBits` | tree/avl/tree_delete.go:18-71 | removing keeps clean bits and caches consistent |
| `Avl.InsertRefines` | tree/avl/tree_add.go:15-52 | on valid trees Add is insertion into a map: an error if and only if the key is present, otherwise exactly that entry more, and the tree stays valid |
| `Avl.UpdateRefines` | tree/avl/tree_update.go:11-45 | on valid trees Update is the update of a map: an error if and only if the key is missing |
| `Avl.RemoveRefines` | tree/avl/tree_delete.go:9-71 | on valid trees Delete is deletion from a map: an error if and only if the key is missing |
| `Avl.GetRefines` | tree/avl/tree_get.go:15-37 | search finds a key if and only if the map has it, with the unit of the map |
| `Avl.MarkCleanRefines` | tree/avl/tree.go:87-106 | the commit traversal makes every node clean, although it stops at clean nodes, and keeps validity and contents |
| `Avl.RehashExact` | state/state_hasher.go:26-95 | the incremental traversal, which skips clean and calculated subtrees, stores at the root exactly the value and hash of a recomputation from the units alone; the result is clean, calculated and consistently cached |
| `Avl.RehashKeeps` | state/state_hasher.go:26-95 | hashing keeps shape, order, depths and all hashed content of the units |
| `Avl.RehashLogged` | state/state_hasher.go:48-92 | hashing changes nothing in a ledger whose units are all as their last log entries say |
| `Avl.CalculatedIsExact` | state/state_hasher.go:34-36 | in a consistently cached tree a calculated root already stores the recomputed summary, so skipping it is never stale |
| `AvlHeap.Writable` | tree/avl/tree_add.go:74-100 | a clean node is copied (fresh, dirty, caches dropped), a dirty one is returned itself |
| `AvlHeap.RotateRight` | tree/avl/tree_add.go:74-86 | on the heap: the value of the tree becomes the rotated value, no node occurs twice, only dirty nodes of this tree are written, nothing new becomes shared |
| `AvlHeap.RotateLeft` | tree/avl/tree_add.go:88-100 | mirror image of the right rotation, same frame |
| `AvlHeap.Rotate` | tree/avl/tree_add.go:54-72 | the in-place rebalancing computes the rebalanced value within the same frame |
| `AvlHeap.Insert` | tree/avl/tree_add.go:24-52 | in-place insert computes the pure insert, writes only dirty nodes of this tree, owns only its old dirty nodes and fresh ones, and on a present key leaves the tree as it was |
| `AvlHeap.Update` | tree/avl/tree_update.go:20-45 | in-place update computes the pure update in the same frame; on a missing key the tree is as it was |
| `AvlHeap.Get` | tree/avl/tree_get.go:26-37 | search through the nodes finds what search through the value finds |
| `AvlHeap.Replace` | tree/avl/tree_delete.go:73-99 | in-place predecessor extraction computes the pure one in the same frame |
| `AvlHeap.Remove` | tree/avl/tree_delete.go:18-71 | in-place removal computes the pure removal in the same frame; on a missing key the tree is as it was |
| `AvlHeap.MarkClean` | tree/avl/tree.go:87-106 | the traversal sets the clean bits of exactly this tree's dirty nodes |
| `AvlHeap.Node.Balanced` | tree/avl/node.go:47-57 | a rebuilt node is dirty and its depth is one more than the larger child depth |
| `AvlHeap.Node.DirtyCopy` | tree/avl/node.go:73-82 | a copy keeps key, children and depth, clones the unit and is dirty |
| `Clones.StepRefines` | tree/avl/tree.go:47-60 | every operation on one copy is the same operation on a map and keeps the tree valid |
| `Clones.AloneRefines` | tree/avl/tree.go:47-60 | so are all operations of one copy in an interleaving |
| `Clones.Interleave` | tree/avl/tree.go:47-106 | copy-on-write isolation: a clone and its original, changed in any interleaving of adds, updates, deletes and commits, both end with exactly the tree and the map that their own operations alone produce, and no node that existed before is written |
| `Store.SavepointUndone` | state/state.go:572-589 | rolling back to a savepoint undoes whatever was stacked above it; releasing keeps the top at the old depth |
| `StateHeap.HashUnit` | state/state_hasher.go:48-92 | one node of the hasher: log hash unless present, last log entry as data, wrapping sum, hash of all seven parts |
| `StateHeap.Rehash` | state/state_hasher.go:26-95 | the hasher on the heap writes only nodes that were dirty or not calculated, computes the pure traversal, and changes nothing that hashing reads |
| `StateHeap.Refreshed` | state/state_hasher.go:26-95 | a tree of clean nodes that shares nodes with a tree being hashed stays a valid tree with the same contents and the same recomputed summary |
| `StateHeap.State.constructor` | state/state.go:53-64 | a new state has one empty savepoint and an empty committed tree |
| `StateHeap.State.Get` | state/state.go:152-163 | reads the unit of the latest savepoint, if it is there |
| `StateHeap.State.Add` | state/actions.go:32-55 | adds a unit to the latest savepoint; every other savepoint and the committed tree keep their contents; fails exactly on an existing unit |
| `StateHeap.State.Update` | state/actions.go:163-187 | replaces a unit in the latest savepoint only; fails exactly on a missing unit; what hangs off the way to the unit is the same as before, and a dirty root keeps its place |
| `StateHeap.State.Delete` | state/actions.go:251-261 | deletes a unit from the latest savepoint only; fails exactly on a missing unit |
| `StateHeap.State.Savepoint` | state/state.go:561-570 | the stack grows by a copy of its top, all trees stay valid and only the new top may own dirty nodes |
| `StateHeap.State.RollbackToSavepoint` | state/state.go:572-579 | the stack is cut to the given depth; a depth beyond it changes nothing |
| `StateHeap.State.ReleaseToSavepoint` | state/state.go:581-589 | the top moves down to the given depth; a depth beyond it changes nothing |
| `StateHeap.State.RunAdd` | state/actions.go:32-160 | AddUnit, AddOrPromoteUnit and AddDummyUnit, with their errors, on the shared trees: a dummy is promoted, a unit with data is not |
| `StateHeap.State.RunChange` | state/actions.go:163-288 | UpdateUnitData, SetStateLock, RemoveStateLock and MarkForDeletion, with their errors: a locked unit is not locked again, an unlocked one not unlocked |
| `StateHeap.State.Apply` | state/state.go:186-201 | all actions take effect or none does, with the error of the first that failed; depth and lower savepoints stay; the committed tree stays |
| `StateHeap.State.AddUnitLog` | state/state.go:165-181 | the unit's log grows by one entry chained to the last ledger head; fails exactly on a missing unit |
| `StateHeap.State.Prune` | state/state.go:307-313 | every unit with several log entries keeps one, for its present data and its last ledger head; all others are unchanged; nothing is written if there is no such unit |
| `StateHeap.State.PruneFrom` | state/state_pruner.go:17-45 | the traversal, children before parents, that updates the tree it walks over: dirty nodes change under it and clean ones are replaced, and still exactly the units below the node are pruned, each from the value it had at the start; the parts not yet visited stay as they were |
| `StateHeap.OffPath` | tree/avl/tree_update.go:20-45 | a part of a tree that has none of the updated keys is still a part of the tree, node by node, after any number of updates |
| `StateHeap.State.CalculateRoot` | state/state.go:280-297 | the result is the summary recomputed from the units of the latest savepoint, and its value is the value of all bills that the last log entries show, as a 64-bit word; every savepoint and the committed tree keep their hashed contents and recomputed summaries although they share the hashed nodes; units that are as their logs say are not changed at all |
| `StateHeap.State.Commit` | state/state.go:204-237 | succeeds exactly when the root is clean and the stored summary is the certified one; then the latest savepoint is committed and alone on the stack, and if it was hashed the certified summary is the recomputed one; otherwise nothing changes |
| `StateHeap.State.Revert` | state/state.go:247-251 | the stack is the committed tree alone |
| `StateHeap.RootAfter` | state/state.go:186-313 | after any sequence of apply, savepoint, rollback, release, log, prune, hash, commit and revert, the incrementally calculated root equals the recomputation over the latest savepoint, and its value is that of all its bills |
| `Summaries.SummaryValue` | state/state_hasher.go:62-76 | for every ordered tree: the value of the root summary is the sum, modulo 2^64, of the bills in the last log entries of all units |
| `Summaries.LoggedWorth` | state/state_hasher.go:55-60 | where all units are as their logs say, that is the sum of all bills of the ledger |
| `Summaries.LogsRootBinds` | state/state_hasher.go:45-53 | two logs with the same root have the same number of entries, and the same was hashed of each |
| `Summaries.RootBinds` | state/state_hasher.go:78-92 | two trees with the same root hash have the same units with the same logs; every unit with a log has the same data, lock and deletion round in both |
| `Units.PivotExactly` | state/state_hasher.go:45-53 | the hash tree over a log is cut at the one power of two that is below its length and not below half of it |
| `Proofs.MerklePathSound` | state/state.go:468-492 | for every log entry, evaluating its path gives the root of the hash tree over the log |
| `Proofs.LedgersChained` | state/unit.go:145-160 | unit logs stay hash chains of ledger heads under every action, every log entry and pruning |
| `Proofs.StepExact` | state/state.go:518-537 | one step of the walk: the path item for a node turns the child's stored summary into the node's |
| `Proofs.CreateStateTreeCert` | state/state.go:494-559 | folding the certificate bottom-up with the hasher's node formula, from the log hash stored with the unit, gives exactly the value and hash stored at the root; also in a tree that was read from a file |
| `Proofs.CreateUnitStateProof` | state/state.go:371-426 | a proof exists exactly when there is a unicity certificate, for a unit of the committed tree and a log entry of it, and carries that entry's state; it evaluates to the root summary if and only if the entry is linked to its unit ledger, and for a unit read from a file and not yet pruned if and only if the log hash of the file is that of the two entries; entry 0 of an empty log is a fault |
| `Proofs.LogProofExact` | state/state.go:468-492 | the path of an entry, evaluated from the leaf that a verifier computes, gives the unit's log hash exactly under that condition |
| `Proofs.ChainedIsLinked` | state/unit.go:145-160 | in a unit ledger that is a hash chain every entry is linked, so its proof holds |
| `Proofs.CertInjective` | state/state.go:494-559 | a certificate fits one log hash only |
| `Recovery.Serialize` | state/state_serializer.go:49-102 | writes the post-order records of the tree behind what is written; fails exactly when some unit has an empty log |
| `Recovery.ReadNodeRecords` | state/state.go:76-137 | rebuilds over a stack exactly the tree that the records describe, from fresh nodes; fails unless exactly the root is left |
| `Recovery.RoundTrip` | state/state.go:122-136 | reading the records of any tree leaves exactly its recovered form on the stack |
| `Recovery.RecoveredShape` | state/state.go:122-130 | the recovered tree has the same keys and is an AVL tree of the same depth |
| `Recovery.RecoveredStates` | state/state.go:98-120 | every unit comes back in its latest state, if none is locked or marked for deletion |
| `Recovery.RecoveredHash` | state/state_deserializer.go:39-51 | the summary value always survives; the root hash calculated after recovery equals the original one if and only if every unit can be restored: it is not locked or marked for deletion (the records leave both out), or it was itself read from a file, not pruned since, and that file's log hash is that of its two entries |
| `Recovery.Reload` | state/state_deserializer.go:13-56 | write, read and hash, end to end on the heap: a valid, clean tree of the same shape, with the root summary of the original exactly when every unit can be restored |
| `Recovery.LoadState` | state/state_deserializer.go:39-51 | the loaded state is a valid state over the recovered tree; with a certificate for the tree that was written, loading succeeds exactly when every unit can be restored |
| `Recovery.RecoveredValid` | state/state.go:106-130 | a recovered tree is valid before and after hashing, and then clean and calculated, so that everything about states applies to it |
| `Recovery.RecoveredLogsTrue` | state/state.go:108-120 | after recovery the log hashes are those of the logs if and only if every unit had one log entry (or two, of which the first is blank) |
| `Recovery.RecoveredProof` | state/state.go:108-120 | a proof from a recovered unit holds if and only if its log had one entry, apart from the blank pair |
| `Recovery.PruningRepairs` | state/state_pruner.go:17-45 | after pruning all log hashes are those of the logs, and the root summary is the one that the logs alone give |
| `Avl.FromLogsExact` | state/state_hasher.go:48-56 | the recomputed summary is the one that the logs alone give if and only if every log hash is that of its log |
| `Genesis.GenesisState.Perform` | state/state_deserializer.go:52-54 | every operation on the state of a file without a certificate, with tree objects of which the committed one may be the first savepoint, keeps the objects and the shared nodes in line and does what its meaning says; hashing included |
| `Genesis.GenesisState.constructor` | state/state_deserializer.go:52-54 | the committed tree and the first savepoint are one and the same object |
| `Genesis.GenesisState.AddUnitLog` | state/state.go:165-181 | a log entry at depth one is written through the shared object, or into the shared dirty root, and then is in the committed ledger too |
| `Genesis.GenesisState.RunPrune` | state/state.go:307-313 | the same for pruning, if some unit has several log entries |
| `Genesis.GenesisState.CalculateRoot` | state/state.go:280-297 | hashing makes the root clean, so that two trees that shared a dirty root become independent; a shared object stays shared; no log changes |
| `Genesis.GenesisState.RunSavepoint` | state/state.go:561-570 | a savepoint makes all nodes clean, with the same effect |
| `Genesis.GenesisState.RunRelease` | state/state.go:581-589 | a release to depth one replaces the first savepoint and so ends the sharing |
| `Genesis.GenesisState.RunRevert` | state/state.go:247-251 | a revert makes a second object with the committed root, which is shared as long as it is dirty |
| `Genesis.GenesisState.RunApply` | state/state.go:186-201 | actions never reach the committed tree, because they run above the first savepoint |
| `Genesis.GenesisState.Commit` | state/state.go:204-237 | succeeds exactly when the root is clean and the stored summary is the certified one, and then ends the sharing; a refused one changes nothing |
| `Genesis.ChangesCommitted` | state/state.go:165-181 | exactly these steps change a log of the committed ledger without a commit: at depth one, while the trees are linked, a log entry for a unit that is there, and pruning when some unit has several entries; all others, hashing included, leave a ledger alone whose units are as their logs say |
| `Genesis.RevertUndoes` | state/state.go:247-251 | after any sequence of operations, with hashing and commits in any order, a revert goes back to the ledger of the last commit or of the start if and only if no operation since then is such a step; after a commit none is |
| `Crc.CRC32Reader.Append` | state/crc32_reader.go:43-44 | appending to the buffer keeps its window, in place while there is room and in a new array otherwise, and never loses capacity |
| `Crc.CRC32Reader.Read` | state/crc32_reader.go:28-55 | hashed bytes and held-back bytes make up everything read, exactly as many are held back as a checksum has (or all, if fewer), and the buffer can always be resliced to a checksum |
| `Crc.Chunked` | state/crc32_reader.go:25-59 | for every way of cutting a stream into reads, the hashed bytes are all but the last checksum-length ones |
| `Consensus.NewVoteJustified` | rootchain/consensus/safety_module.go:96-136 | a new vote rests on a verified QC for its parent, commits the parent exactly if it is the round before, and otherwise rests on a TC for the round before, verified or assembled by counting, with a high QC not above the parent |
| `Consensus.StepKeepsVotes` | rootchain/consensus/safety_module.go:96-153 | every step, by anyone, keeps every honest vote justified and within the persisted rounds; honest votes may use a TC, and honest timeouts a high QC, that the validator assembled itself |
| `Consensus.StepKeepsOneVote` | rootchain/consensus/safety_module.go:54-57 | every step keeps one vote per round for each honest validator |
| `Consensus.StepKeepsTimeouts` | rootchain/consensus/safety_module.go:159-182 | every step keeps: an honest validator that voted in a round and timed out in it or later reported a high QC no older than its vote's parent |
| `Consensus.Invariant` | rootchain/consensus/safety_module.go:48-194 | in every run, with Byzantine signatures, crashes between persisting and signing, and certificates that were only counted, all of this holds in every world |
| `TrustBase.StakesShareHonest` | rootchain/consensus/types/quorum_certificate.go:83-113 | two sets that each hold a quorum of stake share an honest validator, when twice the threshold exceeds all stake plus the stake of the Byzantine ones |
| `TrustBase.CountWithinStake` | rootchain/consensus/vote_register.go:85-89 | where every signer has a stake of at least one, the count of signers never exceeds their stake; with stakes of one the two are equal |
| `TrustBase.StakedQuorumsMeet` | rootchain/consensus/vote_register.go:85-89 | where moreover every validator has a stake, enough votes by number are enough by stake, and any two quorums, counted or weighed, share an honest validator |
| `TrustBase.CountBeyondStake` | rootchain/consensus/vote_register.go:112-115 | an instance with three validators without stake: quorums by stake meet, but enough votes by number carry no stake and contain no honest one |
| `Consensus.UniqueCertificate` | rootchain/consensus/vote_register.go:50-92 | at most one round info and one commit info is certified per round after genesis: by certificates that verify, where every quorum of stake shares an honest validator with every quorum, and by counted ones too, where any two quorums do |
| `Consensus.LockIn` | rootchain/consensus/safety_module.go:138-182 | under the same two conditions: once a round is certified with parent r, every timeout certificate for that round or later, verified or assembled by counting with signatures for any epochs, has a high QC of round r or later |
| `Consensus.NoVoteBelow` | rootchain/consensus/safety_module.go:66-77 | no honest validator votes in a later round for a block whose QC is below that parent |
| `Consensus.CommitIsParent` | rootchain/consensus/safety_module.go:185-194 | a committing certificate, verified or assembled, is for the round right after the committed one and carries the root hash, epoch and time that every certificate of the committed round certified |
| `Consensus.SameCommit` | rootchain/consensus/storage/block_store.go:123-149 | two certificates that commit the same round agree on all that is signed |
| `Consensus.DescendsFromCommit` | rootchain/consensus/storage/block_store.go:123-149 | from every certificate at or after a committed round a chain of certificates leads, parent by parent, to the committed round; all but the first verify |
| `Consensus.Agreement` | rootchain/consensus/storage/block_store.go:123-149 | agreement over whole runs: of any two commits, at any two points of a run, the later builds on the earlier through the certified root hash that was committed, and commits of one round are identical; for certificates that verify, where every quorum of stake shares an honest validator with every quorum, counted or weighed, and for assembled ones too, where any two quorums do |
| `Network.ReactFine` | rootchain/consensus/consensus_manager.go:549-745 | what an honest validator does with any message, or when its round matures or runs out, keeps its certificates, collected votes and persisted rounds in order, and what it signs is an honest step of the protocol |
| `Network.EventKeeps` | rootchain/consensus/consensus_manager.go:408-467 | every event, by honest or Byzantine validators, keeps this for everybody and is a step of the protocol or leaves what was signed alone |
| `Network.NetInvariant` | rootchain/consensus/consensus_manager.go:750-801 | in every run of the network every honest validator holds a last TC for the round before its own, or a QC for it, that was verified or assembled, and has persisted nothing ahead of them |
| `Network.Refines` | rootchain/consensus/consensus_manager.go:349-406 | every run of the network, with lost, late and repeated messages and with certificates attached anew, is a run of the protocol |
| `Network.CertificatesAgree` | rootchain/consensus/consensus_manager.go:750-781 | agreement over all runs of the network, under the conditions of the protocol |
| `Network.NodesAgree` | rootchain/consensus/consensus_manager.go:750-781 | whatever two honest validators have committed, at any two points of a run, agrees, where any two quorums share an honest validator |
| `Roots.HonestVotesReal` | rootchain/consensus/safety_module.go:96-136 | in every run of the network every honest vote is for a block that was proposed, on a QC that verifies, and says its round, epoch and time and the state root that executing it leads to |
| `Roots.CertifiedIsExecuted` | rootchain/consensus/consensus_manager.go:706-735 | where quorums meet, every certificate after genesis is for a proposed block and certifies the state root that executing it leads to |
| `Roots.CommittedIsExecuted` | rootchain/consensus/storage/block_store.go:123-149 | what is committed in a round after genesis is the state root that executing a proposed block of that round leads to, with its epoch and time |
| `Roots.CertifiedIsAccepted` | rootchain/consensus/storage/block_store.go:123-149 | a validator that has that block, executed, on the parent that it names, accepts the certificate |
| `Disagreement.Disagree` | rootchain/consensus/consensus_manager.go:622-745 | wherever a quorum of stake and another quorum share no honest validator, and a Byzantine one leads, the code can be brought, with messages that every receiver accepts, to sign certificates that verify and commit rounds 2 and 4 without building on each other |
| `Disagreement.AgreesExactly` | rootchain/consensus/vote_register.go:85-115 | for every trust base with a Byzantine validator whose threshold can be reached: certificates that verify agree in all runs of the network, whoever leads, if and only if every quorum by stake shares an honest validator with every quorum, by stake or by number |
| `Disagreement.UnevenDisagrees` | rootchain/consensus/vote_register.go:112-115 | with validators without stake agreement fails although quorums by stake meet |
| `SafetyRules.SafetyModule.SetHighestQcRound` | rootchain/consensus/storage/db_bolt.go:298-322 | both persisted rounds are raised in one step and never lowered |
| `SafetyRules.SafetyModule.SetHighestVotedRound` | rootchain/consensus/storage/db_bolt.go:268-280 | the persisted voted round is raised and never lowered |
| `SafetyRules.SafetyModule.SafeToVote` | rootchain/consensus/safety_module.go:48-78 | decides the voting rule exactly |
| `SafetyRules.SafetyModule.SafeToTimeout` | rootchain/consensus/safety_module.go:159-182 | decides the timeout rule exactly |
| `SafetyRules.SafetyModule.MakeVote` | rootchain/consensus/safety_module.go:96-136 | for a proposal whose certificates verify and a last TC that was verified or assembled: refuses exactly unsafe blocks and then persists nothing; otherwise what it persists and signs is an enabled honest step of the protocol, the vote says the round, epoch and time of the block, the round of its parent and the executed state root, and the voted round rises strictly |
| `SafetyRules.SafetyModule.SignTimeout` | rootchain/consensus/safety_module.go:138-153 | with a high QC and a last TC that were verified or assembled: refuses exactly unsafe timeouts and then persists nothing; otherwise what it persists and signs is an enabled honest step of the protocol |
| `Progress.Regroup` | rootchain/consensus/consensus_manager.go:435-467 | honest validators that hold nothing a receiver would refuse, as many as the threshold, can all come to the last round that one of them has reached and time out in it, by messages that all of them accept |
| `Progress.TimeOutOne` | rootchain/consensus/pacemaker.go:152-156 | such a validator can always time out in its round, or has done so |
| `Progress.Gather` | rootchain/consensus/consensus_manager.go:622-666 | their timeouts make a TC that verifies at any one of them, whatever was collected there before, and lead it to the next round, where it proposes if it is the leader |
| `Progress.Climb` | rootchain/consensus/pacemaker.go:226-238 | round by round they pass the rounds of other leaders, up to one of their own, with nobody having voted there |
| `Progress.CertifyBlock` | rootchain/consensus/consensus_manager.go:688-745 | a block that the leader proposes is voted for by all and certified by the next leader, who then proposes on top of it |
| `Progress.NeverStuck` | rootchain/consensus/consensus_manager.go:349-745 | from every point of every run, if as many honest validators as the threshold hold nothing that a receiver would refuse, enough votes by number are enough by stake, and they lead three rounds in a row again and again, then they can go on by themselves until one of them commits a round in which no honest validator has voted |
| `Standstill.StaysJammed` | network/protocol/abdrc/timeout.go:47-76 | once every honest validator holds a last TC that does not verify, nothing that they do among themselves is accepted by any of them |
| `Standstill.CanJam` | rootchain/consensus/types/timeout_certificate.go:100-117 | as many timeouts as the threshold with too little stake, or with a Byzantine one for another epoch among them, can bring all honest validators there, whoever leads |
| `Standstill.TooFew` | rootchain/consensus/vote_register.go:85-89 | with fewer validators than the threshold no round is ever left |
| `Standstill.HonestGoOn` | rootchain/consensus/consensus_manager.go:349-745 | where all validators are honest, enough by number, and counts carry their stake, they can go on from every point of every run |
| `Standstill.CanGetStuck` | rootchain/consensus/pacemaker.go:226-238 | otherwise there is a run after which nothing that the honest validators do commits a new round |
| `Standstill.ProgressExactly` | rootchain/consensus/types/timeout_certificate.go:119-155 | for every trust base with a threshold of at least two and any leaders among the validators: the honest ones can go on by themselves from every point of every run if and only if all validators are honest, they are as many as the threshold, and enough votes by number are enough by stake |
| `Standstill.OneIsEnough` | rootchain/consensus/types/timeout_certificate.go:119-155 | an instance: four validators with a stake of one, threshold three; one timeout for another epoch by the only Byzantine one stops the other three, although all that safety needs is given |
| `VoteRegister.PartialTc.Add` | rootchain/consensus/types/timeout_certificate.go:100-117 | refused exactly for another round or a known author; the collected signatures are real, and the kept high QC is always the highest one that any signer reported |
| `VoteRegister.Register.InsertVote` | rootchain/consensus/vote_register.go:50-92 | an author counts once, a second vote is refused as duplicate or equivocation and changes nothing; a certificate is returned exactly when as many authors as the threshold voted for the same commit info, and it verifies if and only if their stakes add up to the threshold (the code counts authors, verification adds stakes); signature sets handed out only ever grow |
| `VoteRegister.Register.InsertTimeoutVote` | rootchain/consensus/vote_register.go:98-118 | counts timeout votes of one round, one per author; from the threshold on it returns a certificate that a validator may hold, which verifies if and only if the stakes of its signers suffice and all collected signatures are for the epoch of the timeout that was kept (the code counts signers and does not compare epochs) |
| `VoteRegister.Register.Reset` | rootchain/consensus/vote_register.go:120-124 | empties the register without touching the signature sets of certificates handed out |
| `VoteRegister.CertificateGrows` | rootchain/consensus/vote_register.go:81-88 | a certificate whose signature set grows by real signatures still verifies |
| `VoteRegister.HeldGrows` | rootchain/consensus/vote_register.go:81-88 | the same for a certificate that was only counted |
| `Pacemaker.Pacemaker.Reset` | rootchain/consensus/pacemaker.go:105-125 | starts after the newer of the two certificates, holds the TC only if it is the newer, and restores the last vote only if it is for the new round |
| `Pacemaker.Pacemaker.SetVoted` | rootchain/consensus/pacemaker.go:140-144 | remembers a vote only for the current round |
| `Pacemaker.Pacemaker.SetTimeoutVote` | rootchain/consensus/pacemaker.go:152-156 | remembers a timeout vote only for the current round |
| `Pacemaker.Pacemaker.RegisterVote` | rootchain/consensus/pacemaker.go:176-187 | counts a vote exactly in its own round and once per author; the round QC becomes whatever the last registered vote produced; a QC is for the current round and verifies exactly when the stakes of its signers suffice |
| `Pacemaker.Pacemaker.AdvanceRoundQC` | rootchain/consensus/pacemaker.go:206-223 | advances exactly on a QC for the current round or later, forgets votes and TC, and keeps that a held TC is for the round before the current one and remembered votes are for the current one |
| `Pacemaker.Pacemaker.AdvanceRoundTC` | rootchain/consensus/pacemaker.go:226-238 | advances exactly on a TC for the current round or later and then holds it; same invariant |
| `Pacemaker.Pacemaker.RegisterTimeoutVote` | rootchain/consensus/pacemaker.go:193-203 | counts the vote, returns a certificate exactly from the threshold on, and otherwise jumps to the timeout state exactly when more than the faulty ones have timed out |
| `Pacemaker.Pacemaker.OnTimeoutMsg` | rootchain/consensus/consensus_manager.go:622-666 | a stale or unverified vote changes nothing; otherwise, if the high QC is accepted, the vote is counted in its own round if and only if its last TC is older than that round; a certificate it completes is processed and held as last TC; whatever is held as last TC was verified or assembled; the round never goes back |
| `Pacemaker.RegistrationRound` | network/protocol/abdrc/timeout.go:36-60 | for every valid timeout message: counted in its own round if and only if its last TC is absent or older (validity looks at the last TC only when the high QC is not for the round before) |
| `Pacemaker.CountedInAnotherRound` | network/protocol/abdrc/timeout.go:47-58 | a valid timeout vote for round 5 with a TC for round 7 is counted in round 8 |
| `Pacemaker.RoundsAdvance` | rootchain/consensus/pacemaker.go:206-238 | over any sequence of certificates the round never goes back, and the certificates that advance it have strictly increasing rounds, so none does so twice |
| `BlockStore.BlockTree.Add` | rootchain/consensus/storage/block_tree.go:175-194 | adds a leaf exactly when the round is free and the parent is there; the tree stays a tree and its root stays committed |
| `BlockStore.BlockTree.RemoveLeaf` | rootchain/consensus/storage/block_tree.go:197-219 | removes exactly leaves other than the root; a missing block is no error; the tree stays a tree and its root stays committed |
| `BlockStore.BlockTree.FindPathToRoot` | rootchain/consensus/storage/block_tree.go:231-256 | the blocks from the round up to the root, each the parent of the one before, without the root |
| `BlockStore.BlockTree.FindBlocksToPrune` | rootchain/consensus/storage/block_tree.go:293-320 | the stack traversal collects exactly the blocks that do not build on the new root; it fails exactly when the new root is not in the tree |
| `BlockStore.AboveIsTree` | rootchain/consensus/storage/block_tree.go:362-369 | what builds on a block is a tree again, with that block as root |
| `BlockStore.BlockTree.Commit` | rootchain/consensus/storage/block_tree.go:338-384 | commits the parent of the certified round and keeps exactly what builds on it; the committed state root is the certified one; on a wrong state root the pruning has already happened, and the tree is still a tree if and only if the root itself was to be committed |
| `BlockStore.FailedCommitBreaksTree` | rootchain/consensus/storage/block_tree.go:362-374 | an instance: after a failed commit of round 6 over root 5 the root is no longer in the tree |
| `BlockStore.BlockTree.ProcessQc` | rootchain/consensus/storage/block_store.go:123-149 | accepted exactly if it is stale, or its block is in the tree with the certified state root and, when it commits, its parent with the committed one; a stale QC changes nothing; a committing one makes its parent round the root, with the certified state root; the genesis certificate never commits; with QCs that verify or were assembled, the root is always genesis or a round that the kept commit QC commits |
| `BlockStore.ValidatorsAgree` | rootchain/consensus/storage/block_tree.go:338-384 | any two trees kept by these operations, at any two points of a run: equal roots have equal state roots, and otherwise the later root was certified on top of the earlier one with the state root that its tree has |
| `QuorumBuffer.MajorityExactly` | rootchain/partitions/partition_trust_base.go:22-26 | a request wins if and only if more than half of the nodes sent it |
| `QuorumBuffer.MajorityIsUnique` | rootchain/partitions/partition_trust_base.go:22-26 | at most one request has a majority |
| `QuorumBuffer.CountingIsExact` | rootchain/request_buffer.go:219-237 | the three-way test on the largest count is right: achieved iff some request has a majority, not possible iff no completion of the missing votes gives one |
| `QuorumBuffer.StatusIsUnique` | rootchain/request_buffer.go:209-238 | exactly one verdict is right for given votes, so the order of the map cannot matter |
| `QuorumBuffer.FinalStatusStays` | rootchain/request_buffer.go:209-238 | a final verdict and its winner survive every later vote |
| `QuorumBuffer.RequestBuffer.Add` | rootchain/request_buffer.go:182-201 | the first request of a node is stored and decided on, a second is refused and changes nothing; an achieved verdict comes with exactly the winner's requests, a negative one with all requests |
| `QuorumBuffer.RequestBuffer.IsConsensusReceived` | rootchain/request_buffer.go:209-238 | the counting loop, in any order, gives the right verdict, and the number of missing votes never wraps |
| `QuorumBuffer.RequestBuffer.Reset` | rootchain/request_buffer.go:203-207 | forgets all votes |
| `Fees.FeeBound` | txsystem/fc/fee_credit_module.go:82-93 | for every maximum fee and every gas use from the general charge to all gas bought, the fee is at least one and at most the maximum, even if the purchase or the rounding wraps around |
| `Fees.CostExactly` | txsystem/fc/fee_credit_module.go:82-89 | the cost is at least one; it is the gas to the nearest unit of fee, or one if that is less, if and only if the rounding does not wrap around, and one otherwise |
| `Fees.CostGrows` | txsystem/fc/fee_credit_module.go:82-89 | more gas never costs less |
| `Fees.GasWorth` | txsystem/fc/fee_credit_module.go:82-93 | all the gas that a fee buys costs that fee |
| `Fees.ExecutionContext.SpendGas` | txsystem/types/execution_context.go:68-75 | spends exactly the gas if there is enough and everything otherwise |
| `Fees.ChargeTransaction` | txsystem/types/execution_context.go:44-81 | over any sequence of charges after the general one: fee between one and the maximum, and a balance that covers the maximum pays it without underflow |
| `Fees.CreditIsExact` | txsystem/fc/tx_executor_add_fee_credit.go:127-136 | what is credited plus both fees is exactly the transferred amount; neither subtraction wraps (the same condition guards reclaiming fee credit) |
| `Fees.ChecksExactly` | txsystem/fc/tx_executor_add_fee_credit.go:127-136 | accepted exactly if the amount covers the fee that was paid and the maximum of the present one |
| `Fees.CreditExactly` | txsystem/fc/unit/state_actions.go:24-41 | crediting adds exactly the value, exactly if the balance does not overflow; the lifetime never gets shorter |
| `Fees.DebitExactly` | txsystem/fc/unit/state_actions.go:43-58 | debiting takes exactly the value off, exactly if the balance covers it |
| `Fees.CreditDebit` | txsystem/fc/unit/state_actions.go:24-58 | crediting and debiting the same value gives the balance back; crediting refuses to overflow |
| `TxBuffer.ETBuffer.Add` | txsystem/executed_transactions_buffer.go:41-43 | records the transaction as pending with its timeout |
| `TxBuffer.ETBuffer.Get` | txsystem/executed_transactions_buffer.go:45-55 | finds exactly executed and pending transactions |
| `TxBuffer.ETBuffer.Commit` | txsystem/executed_transactions_buffer.go:58-63 | merges the pending entries into the executed ones in any order |
| `TxBuffer.ETBuffer.Revert` | txsystem/executed_transactions_buffer.go:66-68 | forgets the pending entries only |
| `TxBuffer.ETBuffer.ClearExpired` | txsystem/executed_transactions_buffer.go:71-82 | removes exactly the entries whose timeout has come, from both maps |
| `TxBuffer.Remembered` | txsystem/executed_transactions_buffer.go:58-82 | a transaction of a committed block stays in the buffer until some block ends in a round at or after its timeout |
| `TxBuffer.AtMostOnce` | txsystem/generic_tx_system.go:225-242 | if after every ended round, reverted or not, only later rounds are committed, no transaction is in two committed blocks, although the buffer forgets |
| `TxBuffer.OtherwiseTwice` | txsystem/generic_tx_system.go:495-534 | and only then: for every schedule that breaks this there is a transaction that gets into two committed blocks |
| `TxBuffer.RevertedRoundReused` | txsystem/generic_tx_system.go:506-525 | an instance: a reverted round made again |
| `TxSystem.FailedChangesOnlyFee` | txsystem/generic_tx_system.go:296-357 | a record with failure status changes the fee credit record and nothing else: its balance is lower by exactly the fee, counter, lifetime and owner stay, and it has one new log entry |
| `TxSystem.FailedIsPaid` | txsystem/fc/fee_balance_validator.go:56-59 | a credible record pays for a failed transaction in every case |
| `TxSystem.UpdatesExactly` | txsystem/generic_tx_system.go:349-385 | the updates of a stage count as done exactly if each one that is not optional could be made in its turn |
| `TxSystem.SucceedsExactly` | txsystem/generic_tx_system.go:349-385 | a transaction succeeds exactly if every stage, in its turn, makes its updates and does not fail |
| `TxSystem.TargetsCollected` | txsystem/generic_tx_system.go:575-597 | after a success the targets are exactly the units that some stage reported |
| `TxSystem.LogsExactly` | txsystem/generic_tx_system.go:324-344 | all targets can be logged exactly if they exist; each gets new entries with the hash of the transaction record, the last one with its present data, lock and mark; all other units stay |
| `TxSystem.SuccessLogs` | txsystem/generic_tx_system.go:304-347 | after a success every unit that a stage reported, and the fee credit record, has such a new entry; the fee is gone from the record; all other units are as the stages left them |
| `TxSystem.StaysLogged` | txsystem/generic_tx_system.go:279-386 | if the stages report what they change, then after every transaction, successful, failed or refused, units are as their logs say if they were before |
| `TxSystem.FcStaysLogged` | txsystem/generic_tx_system.go:455-472 | the same for fee credit transactions |
| `TxSystem.OnlyAdmitted` | txsystem/fc/fee_balance_validator.go:39-65 | nothing changes unless the owner of a fee credit record that covers the maximum fee has agreed; a fee credit transaction changes nothing unless it is valid, unconditional and about a unit that is not held by a non-trivial transaction |
| `TxSystem.GenericTxSystem.RunStages` | txsystem/generic_tx_system.go:349-385 | runs any handlers up to the first failure; only the top of the savepoint stack changes |
| `TxSystem.GenericTxSystem.AddLogs` | txsystem/generic_tx_system.go:325-346 | a log entry for each target, or failure if one is missing |
| `TxSystem.GenericTxSystem.Settle` | txsystem/generic_tx_system.go:304-347 | fee and logs are taken together or the stack is as before the transaction; after a failed transaction, whose savepoint is gone, nothing can fail once the fee is paid |
| `TxSystem.GenericTxSystem.DoExecute` | txsystem/generic_tx_system.go:279-386 | for any handlers: no record, and the whole stack unchanged; or a record, the same depth, and a top that is the processed ledger (or for a failure the old one) with fee and logs; what that is, unit by unit, is in `TxSystem.SuccessLogs` and `TxSystem.FailedChangesOnlyFee` |
| `TxSystem.GenericTxSystem.ExecuteFc` | txsystem/generic_tx_system.go:388-472 | a fee credit transaction takes effect completely or not at all; conditional ones and ones on units held by a non-trivial transaction are refused |
| `TxSystem.GenericTxSystem.IsCredible` | txsystem/fc/fee_balance_validator.go:39-65 | credible exactly if the record exists, covers the maximum fee and is authorised |
| `TxSystem.GenericTxSystem.Execute` | txsystem/generic_tx_system.go:225-277 | for ordinary and fee credit transactions: a refusal changes neither state nor buffer; anything else was not a duplicate and not expired, is in the buffer, and has exactly the effect of its kind; a credible ordinary transaction whose processing fails always gets a failure record |
| `TxSystem.GenericTxSystem.EndBlock` | txsystem/generic_tx_system.go:506-517 | expired entries leave the buffer; the root is the recomputed one, with the value of all bills that the logs show |
| `TxSystem.GenericTxSystem.Commit` | txsystem/generic_tx_system.go:527-534 | state and buffer are committed together or not at all |
| `TxSystem.GenericTxSystem.Revert` | txsystem/generic_tx_system.go:519-525 | state and buffer go back to the last commit, unless the round is committed |
| `Handlers.ValidateSplit` | txsystem/money/tx_executor_split.go:82-112 | accepts exactly non-empty outputs with positive amounts and non-empty owner predicates whose sum is below the bill's value, without overflow |
| `Handlers.VerifyDustTransfers` | txsystem/money/tx_executor_swap_dc.go:105-172 | accepts exactly records for this target and counter in strictly increasing order of their bills, and returns their sum unless it overflows |
| `Handlers.VerifyBurns` | txsystem/tokens/ft_join.go:37-87 | accepts exactly proven records for this token, type and counter in strictly increasing order, and returns the sum with the token's value unless it overflows |
| `Handlers.SplitActions` | txsystem/money/tx_executor_split.go:14-46 | the collected actions are one new bill per output and the reduced source; refused on overflow of the sum |
| `Handlers.ExecuteTx` | txsystem/types/executor.go:115-125 | a handler's actions on the state all take effect or none does; what the effect is, kind by kind, is in `Outcomes.ExecuteOutcome` |
| `Handlers.ExecuteLockUnitState` | txsystem/state_lock.go:177-194 | locks every target, creating dummies for missing ones, exactly if none is locked |
| `Handlers.ReleaseUnits` | txsystem/state_lock.go:92-107 | takes the lock off exactly the given units; missing and unlocked ones are no error |
| `Handlers.AbandonUnits` | txsystem/state_lock.go:146-170 | marks exactly the dummies among the targets for deletion in the next round; fails if a target is missing |
| `Handlers.HandleUnlockUnitState` | txsystem/state_lock.go:60-109 | nothing to do on an unlocked unit; otherwise the transaction has to satisfy the execution predicate to have the held one executed, or the rollback predicate to have it rolled back; then all its units are released and reported (`Unlocking.UnlockExactly`) |
| `Handlers.ValidateBillTx` | txsystem/money/tx_executor_swap_dc.go:53-103 | decides validity of transfer, split, dust transfer and swap exactly, and returns the amount of a swap |
| `Handlers.ValidateTokenTx` | txsystem/tokens/ft_join.go:37-112 | decides validity of token transfer, split, burn and join exactly, and returns the sum of a join |
| `Handlers.ValidateTx` | txsystem/money/tx_executor_nop.go:15-75 | decides validity of every modelled transaction type exactly, including mints and no-operations on dummies, bills, fee credit records and tokens (txsystem/tokens/nop_module.go:41-84) |
| `Handlers.ProcessTx` | txsystem/generic_tx_system.go:349-385 | release, validate, then execute or put on hold, on the shared trees, is the ledger-level processing; only the top of the stack changes; the reported units are those released, the targets and, for dust and swaps, the supply |
| `Effects.ExecuteEffect` | txsystem/money/tx_executor_split.go:14-51 | for every transaction type, the actions add up to one change of its own unit, of each created unit and of the supply, and all other units are untouched |
| `Effects.NewBillsEffect` | txsystem/money/tx_executor_split.go:23-34 | the outputs of a split become exactly its new bills, and each was missing or a dummy |
| `Outcomes.ValidatesExactly` | txsystem/money/tx_executor_transfer.go:42-58 | a transaction of any kind is accepted if and only if its unit is of the right sort, the owner agrees, the counter, value and type that it names are those of the unit, it gives away a part and not all, and the records that it redeems are successful, different, and made for the unit as it is now; mints and dummies have their own conditions |
| `Outcomes.ExecuteOutcome` | txsystem/money/tx_executor_transfer.go:14-32 | the effect of every kind, from its attributes and the ledger before: value, owner and counter of its own unit, the new bills and tokens, the collector's supply; nothing wraps around, and nothing else changes |
| `Consent.ProcessOutcome` | txsystem/generic_tx_system.go:349-385 | a transaction that succeeds was acceptable once the locks in its way were gone, and then had exactly this effect, or was put on hold on all its units |
| `Unlocking.HeldExecutes` | txsystem/state_lock.go:131-141 | a transaction on hold can be executed, unless it is a mint, whatever happened since it was put there |
| `Unlocking.UnlockExactly` | txsystem/state_lock.go:29-49 | a held unit is released if and only if the transaction asks for execution and satisfies the execution predicate (and the held one is no mint), or asks for rollback and satisfies the rollback predicate; in the first case the held one has its full effect, in the second no unit's data changes and its dummies are marked; only its own units change |
| `Unlocking.RolledBackGone` | txsystem/state_lock.go:146-170 | the dummies of a rolled back transaction are there until the round is over and gone from the next one on; units with data stay |
| `Unlocking.UnlockAllExactly` | txsystem/generic_tx_system.go:356-363 | before anything else, every held transaction with a unit among the targets is executed or rolled back, as its predicates say; all other units, locked or not, stay as they are |
| `Unlocking.ProcessObeysLocks` | txsystem/generic_tx_system.go:349-385 | the same over a whole transaction: held transactions that are not in its way keep units and locks; if it satisfies neither predicate of one that is, it fails |
| `Unlocking.LocksObeyed` | txsystem/state_lock.go:60-174 | in every run, step by step: a held transaction keeps all its units and locks until somebody who satisfies its execution predicate has it executed or somebody who satisfies its rollback predicate has it rolled back; only a no-operation can also be lost, with its unit, at round start, when that is an expired fee credit record or a dummy due for deletion |
| `Consent.RunCounters` | txsystem/money/tx_executor_transfer.go:14-32 | in every run bills and tokens stay what they are, and their counters never go back |
| `Consent.StaleFails` | txsystem/money/tx_executor_transfer.go:50-52 | once a counter has moved on, every transaction that names it or an older one, or redeems records made for it, fails at every later point of the run, whoever sends it |
| `Consent.MovesOn` | txsystem/money/tx_executor_transfer.go:21 | a transaction that was executed has moved the counter that it depends on |
| `Consent.NeverAgain` | txsystem/money/tx_executor_transfer.go:42-58 | a transaction that was executed never succeeds again in the run, if it names a counter, redeems records or mints |
| `Consent.RepeatsExactly` | txsystem/generic_tx_system.go:234-242 | sent again at once, without the buffer of executed transactions, a transaction would succeed if and only if it is an empty swap, an empty join, or a no-operation on a dummy |
| `Consent.ChangesAllowed` | txsystem/generic_tx_system.go:364-385 | no step changes a bill or a token unless its owner agrees to the step's transaction about it, or the step satisfies the execution predicate of the transaction that holds it; the supply moves with dust and swaps |
| `Consent.CreditOutcome` | txsystem/money/tx_executor_fee_credit_transfer.go:26-51 | a transfer to fee credit or a reclaim changes its bill by exactly the amount, moves its counter on and keeps its owner |
| `Consent.HeldWithConsent` | txsystem/state_lock.go:177-194 | whoever holds a bill or a token was put on hold with the consent of the one who still owns it, and what it says about the unit is still true |
| `Consent.OwnersDecide` | txsystem/generic_tx_system.go:364-385 | in every run, whenever a bill or a token changes, its owner has agreed to a transaction about it: with the step that changes it, or with the one that put that transaction on hold |
| `Consent.NewOwnerDecides` | txsystem/money/tx_executor_transfer.go:22 | after a transfer no transaction about the unit succeeds without the new owner's consent, as long as the unit is as the transfer left it and not on hold |
| `Logging.ReportsCover` | txsystem/generic_tx_system.go:349-385 | whatever a transaction changes, directly or by releasing others, it reports for logging |
| `Logging.ProcessStaysLogged` | txsystem/generic_tx_system.go:304-347 | so after fee and logs units are as their logs say if they were before |
| `Logging.PruningStaysLogged` | state/state_pruner.go:28-44 | pruning keeps that, the state that each log shows, and the last ledger head |
| `Locking.AllOrNothing` | txsystem/state_lock.go:177-194 | the units that carry a transaction's lock are all its targets or none |
| `Locking.ChangeKeeps` | txsystem/state_lock.go:137-194 | a change that touches no transaction on hold partially keeps the lock invariant |
| `LockSafety.UnlockKeeps` | txsystem/state_lock.go:60-174 | releasing by execution or rollback frees the unit, keeps the invariant and never removes another transaction's lock |
| `LockSafety.UnlockAllKeeps` | txsystem/generic_tx_system.go:355-363 | after all targets are released none of them is locked, no lock was added and no unit appeared or disappeared |
| `LockSafety.LockAllEffect` | txsystem/state_lock.go:177-194 | putting on hold succeeds exactly when no target is locked, and then locks exactly the targets |
| `LockSafety.NowOnHold` | txsystem/state_lock.go:183-191 | what validation found is what a later execution relies on |
| `LockSafety.ProcessKeeps` | txsystem/generic_tx_system.go:349-385 | processing any new transaction keeps the lock invariant |
| `LockSafety.DeletionKeeps` | txsystem/generic_tx_system.go:161-214 | deleting expired units keeps it: only dummies are ever deleted |
| `Conservation.ValidIsReady` | txsystem/money/tx_executor_swap_dc.go:53-103 | validation establishes all that the arithmetic of execution needs |
| `Conservation.HeldIsReady` | txsystem/state_lock.go:137-145 | for a transaction on hold it still holds at execution, without validation |
| `Conservation.BillsConserved` | txsystem/money/tx_executor_swap_dc.go:15-51 | every execution keeps the sum of all bills; no 64-bit addition or subtraction wraps |
| `Conservation.TokensConserved` | txsystem/tokens/ft_split.go:22-59 | every execution changes the sum of the tokens of a type by exactly what is minted, burned or joined |
| `Runs.HeldExecutionNeutral` | txsystem/state_lock.go:137-145 | executing a held transaction moves no value, keeps all sums and never lowers a counter; a held split never takes more than its source has |
| `Runs.HeldMintFails` | txsystem/tokens/ft_mint.go:14-24 | a mint on hold can never be executed: its unit exists already |
| `Runs.UnlockNeutral` | txsystem/state_lock.go:60-174 | releasing a lock in either way keeps all sums |
| `Runs.LockNeutral` | txsystem/state_lock.go:177-194 | putting on hold keeps all sums |
| `Runs.FeeCreditKeeps` | txsystem/money/tx_executor_fee_credit_transfer.go:26-51 | transferring value to fee credit and reclaiming it keep locks and books, with the value that left and came back accounted for, and never wrap |
| `Runs.NotRedeemed` | txsystem/money/tx_executor_swap_dc.go:161-169 | records that pass validation succeeded earlier and were never redeemed |
| `Runs.SuccessKeeps` | txsystem/generic_tx_system.go:279-386 | a successful transaction keeps locks and books, and what it redeems was not redeemed before |
| `Runs.NewRoundKeeps` | txsystem/generic_tx_system.go:161-214 | the start of a round, with expired units and expired fee credit records deleted, keeps locks and books |
| `Runs.RunInvariant` | txsystem/generic_tx_system.go:146-386 | in every run, in any order of transactions, fee credit transfers and reclaims, unlocks, rollbacks and rounds: locks are all or nothing, bills plus fee credit taken out minus what was reclaimed are the money at the start, the books balance |
| `Runs.Covered` | txsystem/money/tx_executor_dc_transfer.go:13-57 | at every point of every run bills plus fee credit taken out equal the money at the start plus what was reclaimed, the dust collector holds its initial supply plus all unredeemed dust, and tokens plus unredeemed burns of each type equal what was minted |
| `Runs.RedeemedAtMostOnce` | txsystem/tokens/ft_join.go:37-87 | over any run a record of dust or of a burn is used by at most one swap or join, after it succeeded |
| `Partition.SettlementAlike` | txsystem/generic_tx_system.go:304-347 | fee and logs leave every bill, token, lock and deletion mark as it was |
| `Partition.ExecuteTransaction` | txsystem/generic_tx_system.go:279-386 | the code on the shared trees makes exactly a step of such a run (success, failure, or nothing), keeps its invariant, and leaves all units as their logs say |
| `Partition.EndBlock` | txsystem/generic_tx_system.go:506-517 | the value that is certified at the end of a block is the money at the start without the fee credit that was taken out and with what was reclaimed |

## Left out

- Recovery.ReadNodeRecords: a record that asks for a child when the stack is empty is taken as a failure.
- Handlers.ValidateTx: existence of a token type and its chain of parent predicates are part of the
  oracle.
- Handlers.VerifyBurns: attributes of one transaction type are taken not to decode as those of another.
- Runs.RedeemedAtMostOnce: unit counters are unbounded, so their wrap-around after 2^64 changes is not
  modelled.
- Consent.StaleFails: counters are unbounded here too; no-operations on fee credit records are left out,
  because such a record can be deleted and made again.
- Roots.CertifiedIsAccepted: that the validator has the block and its parent is a hypothesis; fetching blocks
  from others is not modelled.
- Runs.FeeCreditKeeps: the attributes of fee credit transfers and reclaims are reduced to a bill and an
  amount; the consolidation of fees into the fee credit bills is never called by the code
  (txsystem/money/money_module.go:78-87), so bills alone never add up to the money again.
- Fees.CreditIsExact: the recording of fee credit transfers and the remaining checks of adding, closing and
  reclaiming fee credit are not modelled.
- Pacemaker.Pacemaker.OnTimeoutMsg: the round clock and the maturity of rounds are not modelled.
- BlockStore.BlockTree.ProcessQc: shard states, unicity trees and certificates for shards, persistence and
  loading of blocks, and what a timeout certificate does beyond removing its leaf are not modelled.
- Network.Refines: restarts, state recovery from peers, the buffer for votes that overtake their proposal and
  requests of shards are not modelled; the leader of a round is a function of the round, so a leader that
  depends on earlier certificates (rootchain/consensus/leader) is not.
- Progress.NeverStuck: says that a commit stays possible, not when it happens; message delays and the round
  clock are not modelled.
- Standstill.ProgressExactly: for thresholds of at least two; with a threshold of one a single timeout is a
  whole certificate, and the condition is another one.
- Disagreement.AgreesExactly: where all validators are honest, the condition is enough but not shown to be
  necessary.
- QuorumBuffer.RequestBuffer.Add: one shard's buffer; the map of shards and its locking are not modelled.
- BeginBlock and the traversal that finds expired units: their effect on the ledger is in the model, their
  loops are not.
- The partition node, owner and proof indexes, non-fungible tokens, orchestration, permissioned and feeless
  modes: they would add easy members or rest on code that is elsewhere.
- Networking, RPC, configuration, logging, metrics, databases, CBOR, signatures and the predicate engines.
- Concurrency inside one node: every object is used by one caller at a time, as its mutex ensures.
