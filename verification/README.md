# Godwoken, modelled and proved in Dafny

Godwoken is an optimistic rollup. This project models its cooperating state machines and the arithmetic
and encodings they rest on, and proves what they keep.

- **Rollup chain** (`Types`, `AbstractChain`, `Store`, `Rewind`, `Chain`, `RevertContract`). A node takes
  in L1 actions, keeps a valid chain with a run of bad blocks on top, and can undo its own steps.
  `AbstractChain` is the machine on lists. `Chain` is the node with its fields and store columns; every
  method refines the list machine. `RevertContract` is the revert check of the L1 type script.
- **Account state** (`Generator`, `Journal`, `History`). Block application as a fold, the journal that
  undoes writes back to a snapshot, and the per-block records that let a block's state be read or detached.
- **Producing, syncing, following** (`Psc`, `SyncL1`, `Follower`, `Replication`). The three-pointer protocol
  with its background tasks, the walk over L1 transactions, the follower with its pruning buffer, and what a
  follower holds after applying what the producer publishes over any schedule of its loop and tasks.
- **On-chain context** (`Encoding`, `Keys`, `Cbmt`, `Uint256`, `Sudt`, `Accounts`, `Registry`). Merkle
  proofs, 256-bit limbs, token transfer, account creation and the address registry over one key space.
- **Arithmetic and encoding** (`Blake2F`, `Blake2FVectors`, `ContractAddress`, `Capacity`, `Margin`). The
  BLAKE2 F function, contract-address preimages, capacity splitting and the off-chain validator's mock-block
  size margin.

Modelling choices. In the chain modules hashes are ideal: a block's hash is a constructor around the block,
so it is injective, acyclic and never zero, and a sparse Merkle tree is the map it holds. `Cbmt` makes no
such assumption: it works for any hash with 32-byte results and says which collision a wrong proof needs.
The generator is a function from blocks to verdicts in the chain modules, and is itself modelled in
`Generator`, where signatures, virtual machine results and fees are given from outside. L1 actions are
committed one at a time, and the list of skipped invalid blocks is empty. `L1Checked` names what the L1
type script checks and the node does not (`submit_block.rs`, `challenge.rs` and `revert.rs` under
`gwos/contracts/state-validator/src/verifications`); the node's methods are specified without it, and it is needed
only for the chain to stay well formed.

What turned out false of the code, each with its exact condition and an input that shows it:

- On top of a bad block the node checks neither the number of a submitted block nor the tip the rollup cell
  names (`SubmitKeepsExactly`, `GapIsAccepted`).
- The node's test of a challenge against the number of its own bad block never fires, because bad blocks
  have no number in the index; with a bad run in place a challenge is answered with a revert exactly when
  it names the first bad block (`Node.Challenge`, `BadNotIndexed`, `BadLinks`).
- The continuity loop of the L1 revert check remembers the parent hash of the block it just looked at
  instead of its own hash, so of a linked chain it accepts the last one or two blocks and never more
  (`ContinuousExactly`, `AcceptsExactly`, `BuiltRevertAccepted`, `ThreeBadRefused`).
- A follower that lacks the block a producer resynced to stops at the revert message
  (`ResyncReplicatesExactly`, `ScheduleReplicatesExactly`, `NewBlockFromL1`).
- Storing a local block does not look at the challenge target (`AddLocalKeepsExactly`, `LocalBlockExact`,
  `LocalOnBadRun`).
- Repeated indexer records are dropped page by page, so a transaction whose records straddle two pages is
  seen twice, and from the anchor on this makes the sync fail (`VisitedExactly`, `SyncSucceedsExactly`,
  `SeenTwiceExample`, `AnchorStraddlesExample`).
- The off-chain validator pops a request that fails its verification but keeps the margin it took, and the
  next request then trips the margin's assertion (`Validator.VerifyWithdrawal`,
  `Validator.VerifyTransaction`, `PoppedThenNext`).
- Moving a registered script to another address leaves the old address pointing at it
  (`UpdateKeepsExactly`, `MovedScript`).
- A nonce can only drop by wrapping past the 32-bit maximum (`DropsExactly`, `NonceWraps`).

Two conditions the code relies on and its callers meet: the state of block zero is never detached
(`DetachGenesisExactly` says what would be left), and code is always inserted under its own hash, so what is
undone never replaced anything different (`InsertUndoneExactly`).

## Model

| member | source | states |
|---|---|---|
| `AbstractChain.StepKeeps` | crates/chain/src/chain.rs:279-572 | every L1 action the node survives keeps the valid chain linked, the bad run linked on top of it, and a challenge target exactly when the run is non-empty, naming its first block |
| `AbstractChain.RunKeeps` | crates/chain/src/chain.rs:279-572 | over any sequence of actions the chain stays well formed and everything valid before is still there |
| `AbstractChain.SubmitKeepsExactly` | crates/chain/src/chain.rs:301-332 | a submitted block keeps the chain well formed if and only if it has the next number and the rollup cell names it as the tip |
| `AbstractChain.GapIsAccepted` | crates/chain/src/chain.rs:319-332 | a block numbered 7 is taken in on top of bad block 1 |
| `AbstractChain.AddLocalKeepsExactly` | crates/chain/src/chain.rs:951-989 | storing a local block keeps the chain well formed if and only if there is no bad run and the global state names the block |
| `AbstractChain.LocalOnBadRun` | crates/chain/src/chain.rs:951-989 | block 2 is stored on top of bad block 1, and the chain is no longer well formed |
| `AbstractChain.LocalFailsExactly` | crates/chain/src/chain.rs:951-989 | a local block is an error if and only if it forks or the generator does not accept it, trips an assertion if and only if it contradicts what the node holds, and is otherwise appended |
| `AbstractChain.CutTrail` | crates/chain/src/chain.rs:789-814 | going back through the revert log ends at the wanted set if and only if that set was once the current one |
| `AbstractChain.RewindKeeps` | crates/chain/src/chain.rs:762-852 | rewinding to the last valid block always succeeds and gives the chain held when that block was attached |
| `AbstractChain.RevertToExact` | crates/block-producer/src/sync_l1.rs:185-209 | looping the revert down to block n never fails and gives the chain held when n was attached |
| `AbstractChain.UndoRun` | crates/chain/src/chain.rs:656-852 | after any sequence of actions from a clean tip, rewind plus revert gives back the very chain it began with |
| `AbstractChain.RevertPasses` | crates/chain/src/chain.rs:460-557 | reverting the bad run from any position with the state L1 computes passes every assertion on any node with the same chain |
| `AbstractChain.SubmitAnswer` | crates/chain/src/chain.rs:292-382 | a block L1 accepted is attached if and only if the tip is clean and the generator accepts it, becomes the first bad block under the generator's own target if and only if the generator challenges it, joins a bad run that is there, and is an error if and only if the generator cannot run it |
| `AbstractChain.ChallengeAnswer` | crates/chain/src/chain.rs:383-442 | a challenge L1 accepted is cancelled when there is no bad run, and answered with a revert of the whole run if and only if it names its first block |
| `AbstractChain.CancelAnswer` | crates/chain/src/chain.rs:443-459 | after a cancelled challenge the node reports the generator's target for the first bad block if and only if it has a bad run |
| `AbstractChain.RevertAnswer` | crates/chain/src/chain.rs:460-557 | a revert L1 accepted cuts the run before its first block, logs the reverted set and leaves the node challenging what is left |
| `AbstractChain.SubmitFailsExactly` | crates/chain/src/chain.rs:301-382 | whatever the action: a submitted block is an error if and only if it forks or the generator cannot run it, and exactly when it trips an assertion |
| `AbstractChain.ChallengeFailsExactly` | crates/chain/src/chain.rs:383-442 | whatever the action: exactly when a challenge is an error and when it trips an assertion |
| `AbstractChain.RevertFailsExactly` | crates/chain/src/chain.rs:460-557 | whatever the action: a revert is taken if and only if it takes the end of the bad run and the rollup cell agrees, is an error if and only if it starts above the valid chain with an unknown block, and trips an assertion otherwise |
| `AbstractChain.UnexpectedExactly` | crates/chain/src/chain.rs:443-572 | a cancelled challenge trips an assertion if and only if it leaves the rollup halted, and so does every action that does not fit the status the node holds |
| `AbstractChain.FaithfulStep` | crates/chain/src/chain.rs:279-572 | an action L1 accepts trips no assertion, is refused exactly when the generator cannot run the block or the challenge can neither be cancelled nor answered, and otherwise the node mirrors the new rollup cell |
| `AbstractChain.FaithfulRunIsSafe` | crates/chain/src/chain.rs:279-572 | the same for every sequence of actions L1 accepts |
| `ChainStore.InsertBadKeeps` | crates/store/src/transaction/store_transaction.rs:358-383 | inserting a bad block moves the stored chain by exactly that block |
| `ChainStore.BadBlockStored` | crates/store/src/transaction/store_transaction.rs:358-390 | a bad block is stored with its global state, and deleting it takes both back |
| `ChainStore.AttachKeeps` | crates/store/src/transaction/store_transaction.rs:427-470 | inserting and attaching a block moves every column to the chain with that block |
| `ChainStore.RevertKeepsRepr` | crates/store/src/transaction/store_transaction.rs:392-424 | dropping the end of the bad run and logging it gives the store of the shorter chain |
| `ChainStore.PopBadKeeps` | crates/chain/src/chain.rs:819-834 | deleting the last bad block with its target gives the store of the chain without it |
| `ChainStore.DetachKeeps` | crates/store/src/transaction/store_transaction.rs:481-557 | detaching the last valid block and its account state gives the store of the chain without it |
| `ChainStore.BadNotIndexed` | crates/chain/src/chain.rs:399-404 | the local bad block has no number in the index |
| `ChainStore.RewindRestoresExactly` | crates/store/src/transaction/store_transaction.rs:233-244 | reverting blocks, logging it and taking back what the log says restores the reverted set if and only if none of the blocks was in it before |
| `ChainRewind.RewindRevertedTree` | crates/chain/src/chain.rs:723-746 | the log loop stops at the wanted set when it is on the trail and at the genesis set otherwise |
| `ChainRewind.RewindBadBlocks` | crates/chain/src/chain.rs:816-838 | the parent-hash loop removes the whole bad run and its targets from the store |
| `ChainNode.PackageBadBlocks` | crates/chain/src/chain.rs:1114-1151 | the packaged blocks are exactly the bad run from the start block to the tip, or nothing |
| `ChainNode.BuildRevertContext` | crates/challenge/src/context.rs:81-131 | the context has the reverted set with the blocks added and exists exactly when the parent of the first one is a stored valid block |
| `ChainNode.BadLinks` | crates/challenge/src/context.rs:108-114 | only the first bad block has a stored valid block as its parent |
| `ChainNode.TargetStored` | crates/challenge/src/context.rs:35-55 | the block a challenge is raised against is always stored as bad |
| `ChainNode.BuiltRevertPasses` | crates/challenge/src/revert.rs:65-134 | the state built for reverting the bad run passes every assertion on any node with the same chain and leaves no bad block |
| `ChainNode.Node.constructor` | crates/chain/src/chain.rs:159-205 | a node starts on a stored chain with no bad run |
| `ChainNode.Node.SubmitBlock` | crates/chain/src/chain.rs:292-382 | refines the submit step; an error leaves the store as it was |
| `ChainNode.Node.AppendBadBlock` | crates/chain/src/chain.rs:319-332 | refines appending to the bad run |
| `ChainNode.Node.Challenge` | crates/chain/src/chain.rs:383-442 | refines the challenge step and leaves the store as it was |
| `ChainNode.Node.CancelChallenge` | crates/chain/src/chain.rs:443-459 | refines the cancel step and leaves the store as it was |
| `ChainNode.Node.DropBadBlocks` | crates/chain/src/chain.rs:489-557 | refines dropping the matched end of the bad run |
| `ChainNode.Node.Revert` | crates/chain/src/chain.rs:460-557 | refines the revert step, with every assertion of the branch |
| `ChainNode.Node.UpdateL1Action` | crates/chain/src/chain.rs:279-572 | the action chosen by the last status refines the step of the list machine |
| `ChainNode.Node.Sync` | crates/chain/src/chain.rs:855-932 | the closing comparison of the account tree never fails |
| `ChainNode.Node.RewindStore` | crates/chain/src/chain.rs:789-838 | both store loops together give the store of the last valid block |
| `ChainNode.Node.RewindToLastValidTip` | crates/chain/src/chain.rs:762-852 | always ends, restores tip, block map and reverted set of the last valid block |
| `ChainNode.Node.RevertSubmitBlock` | crates/chain/src/chain.rs:669-761 | succeeds exactly when the block is the clean tip and the earlier reverted set is on the trail |
| `ChainNode.Node.RevertToBlock` | crates/block-producer/src/sync_l1.rs:185-209 | the loop refines repeated detaching and keeps the node valid |
| `ChainNode.Node.UpdateLocal` | crates/chain/src/chain.rs:951-989 | refines storing a local block, and leaves the node valid if and only if there was no bad run and the global state names the block |
| `RevertContract.CheckContinuity` | gwos/contracts/state-validator/src/verifications/revert.rs:172-187 | accepts exactly the lists with successive numbers in which the second block names the first and later ones name the parent of the block before |
| `RevertContract.CheckRevertedBlocks` | gwos/contracts/state-validator/src/verifications/revert.rs:152-337 | succeeds exactly on the accepted inputs and computes the reverted state |
| `RevertContract.ContinuousExactly` | gwos/contracts/state-validator/src/verifications/revert.rs:172-187 | the end of a linked chain passes the continuity loop if and only if it has at most two blocks |
| `RevertContract.AcceptsExactly` | gwos/contracts/state-validator/src/verifications/revert.rs:152-337 | for a rollup cell that mirrors a chain, exactly the last block or the last two are accepted |
| `RevertContract.BuiltRevertAccepted` | crates/challenge/src/revert.rs:65-134 | the revert a node builds for its bad run is accepted on L1 if and only if the run has at most two blocks |
| `RevertContract.ThreeBadRefused` | gwos/contracts/state-validator/src/verifications/revert.rs:172-187 | the revert built for a run of three bad blocks is refused |
| `BlockGenerator.VerifyAndApplyBlock` | crates/generator/src/generator.rs:396-713 | succeeds if and only if every withdrawal, deposit and transaction passes on the state the one before left and the last state is the declared one; challenges, panics and receipts are those of the fold |
| `BlockGenerator.AppliesExactly` | crates/generator/src/generator.rs:396-713 | the fold goes through if and only if there is a trace of states in which each withdrawal is signed and debits its account, each deposit credits, each transaction is signed, has the right nonce, runs, and each step meets its checkpoint |
| `BlockGenerator.TxChallengeExactly` | crates/generator/src/generator.rs:541-660 | a transaction is challenged for its signature if and only if all before it pass and it is unsigned or names a missing account, and for its execution if and only if it is authentic and its nonce, execution or checkpoint is wrong |
| `BlockGenerator.WithdrawalChallengeExactly` | crates/generator/src/generator.rs:453-509 | a withdrawal is challenged if and only if all before it pass and its signature does not |
| `BlockGenerator.ReceiptsExactly` | crates/generator/src/generator.rs:600-682 | every receipt names its transaction, says whether it succeeded and commits to the state it left |
| `BlockGenerator.ExecuteExactly` | crates/generator/src/generator.rs:767-905 | a transaction succeeds if and only if its run exits well within limits and raised the nonce; it fails softly, leaving only fee and nonce, if and only if the run failed and the fee was paid; and exactly when it cannot be executed |
| `BlockGenerator.PlayExactly` | gwos/c/common.h:187-218 | a nonce write raises at most one nonce by one, and a new account starts at zero |
| `BlockGenerator.ApplyWithdrawals` | crates/generator/src/generator.rs:453-509 | a withdrawal challenge names the first failing withdrawal, when its signature is what fails |
| `BlockGenerator.ApplyDeposits` | crates/generator/src/generator.rs:511-515 | deposits are folded from the left, each creating accounts that start at nonce zero |
| `BlockGenerator.ApplyTxs` | crates/generator/src/generator.rs:528-682 | either all transactions pass, with their receipts, or the loop stops at the first that does not |
| `BlockGenerator.TxsBefore` | crates/generator/src/generator.rs:541-682 | every transaction before the one the fold reached passed |
| `BlockGenerator.StopsOnce` | crates/generator/src/generator.rs:541-682 | there is at most one first failing transaction |
| `BlockGenerator.DropsExactly` | gwos/c/common.h:187-218 | a nonce write lowers a nonce if and only if it wraps |
| `BlockGenerator.PlayAllRaises` | gwos-evm/c/polyjuice.h:64-85 | any sequence of account creations and nonce increases that does not wrap lowers no nonce |
| `BlockGenerator.ExecuteRaises` | crates/generator/src/generator.rs:817-843 | an accepted transaction raises its sender's nonce whether it succeeded or failed |
| `BlockGenerator.NonceWraps` | gwos/c/common.h:187-218 | an accepted transaction takes another account from the maximal nonce back to zero |
| `BlockGenerator.WithdrawalsRaise` | crates/generator/src/traits.rs:170-238 | withdrawals lower no nonce: the increase is checked and an overflow is an error |
| `BlockGenerator.DepositsRaise` | crates/generator/src/traits.rs:87-168 | deposits and the withdrawals before them lower no nonce |
| `BlockGenerator.ChainNeverDrops` | crates/generator/src/generator.rs:396-713 | over any chain of blocks, each applied on the post state of the one before, with withdrawals, deposits and transactions, no existing account loses from its nonce |
| `BlockGenerator.NoReplay` | crates/generator/src/generator.rs:563-583 | over any chain of successfully applied blocks in which no nonce wraps, later transactions of one sender, in the same block or a later one, have larger nonces, so no sender and nonce are accepted twice |
| `Journal.StateDb.UpdateRaw` | crates/store/src/state/state_db.rs:443-453 | the key reads the new value, every other key the old one, and all snapshots stay reachable |
| `Journal.StateDb.SetAccountCount` | crates/store/src/state/state_db.rs:462-468 | the count is set and all snapshots stay reachable |
| `Journal.StateDb.InsertScript` | crates/store/src/state/state_db.rs:481-487 | the script reads back, every other one as before, and all snapshots stay reachable when the hash stood for the same script |
| `Journal.StateDb.InsertData` | crates/store/src/state/state_db.rs:496-509 | the data reads back, every other piece as before, and all snapshots stay reachable when the hash stood for the same data |
| `Journal.StateDb.AppendLog` | crates/store/src/state/state_db.rs:396-401 | the log is appended and all snapshots stay reachable |
| `Journal.StateDb.Snapshot` | crates/store/src/state/state_db.rs:302-310 | remembers the current dirty state under a new id |
| `Journal.StateDb.FindRevision` | crates/store/src/state/state_db.rs:315-321 | binary search finds the revision if and only if it exists |
| `Journal.Replay` | crates/store/src/state/state_db.rs:325-361 | undoing from the newest entry never trips the log assertion |
| `Journal.StateDb.Revert` | crates/store/src/state/state_db.rs:313-366 | restores exactly what was dirty at the snapshot, whatever came since, and fails exactly for an unknown id |
| `Journal.RevertKeeps` | crates/store/src/state/state_db.rs:313-366 | earlier snapshots stay reachable after a revert |
| `Journal.InsertUndoneExactly` | crates/store/src/state/state_db.rs:340-347 | undoing a script insertion gives back the map if and only if it replaced nothing different, which is what keying by hash provides |
| `Journal.WriteAll` | crates/store/src/state/state_db.rs:377-380 | writing the dirty keys in any order gives the merged map |
| `Journal.StateDb.Finalise` | crates/store/src/state/state_db.rs:369-394 | every read of a key, the count, a script or data is the same before and after, and nothing is dirty |
| `History.SeekForPrev` | crates/store/src/transaction/history_store_impl.rs:41-51 | the last pair not after the target |
| `History.GetHistoryState` | crates/store/src/transaction/history_store_impl.rs:41-75 | one seek gives the value the key had at that block |
| `History.WriteKeeps` | crates/store/src/state/history/history_state.rs:228-258 | a recorded write keeps the tree at its block and every older state as it was |
| `History.AttachBlock` | crates/store/src/state/history/history_state.rs:228-258 | after a block's writes the tree reads the last write of each key and older states are unchanged |
| `History.LastWriteCounts` | crates/store/src/state/history/history_state.rs:228-258 | the last write of a key counts, and a key that is not written keeps its value |
| `History.DetachBlockState` | crates/store/src/state/history/history_state.rs:167-191 | every key reads as at the block before |
| `History.DetachExact` | crates/store/src/state/history/history_state.rs:167-191 | detaching block n gives the state of block n - 1 and changes no older one |
| `History.DetachGenesisExactly` | crates/store/src/state/history/history_state.rs:169-182 | why block zero is never detached: that would clear the tree if and only if the block wrote nothing but zeros |
| `History.DetachTo` | crates/store/src/state/history/history_state.rs:167-191 | detaching down to block m gives the state held when m was the last block |
| `History.AttachAndDetach` | crates/store/src/state/history/history_state.rs:167-258 | attaching any block and detaching it again changes no key |
| `Psc.StepKeeps` | crates/block-producer/src/psc.rs:236-368 | every step of the loop or of a task keeps the stored chain linked with its transactions filed, both counts equal to the gaps between the pointers and the window within its limit; no count underflows and no expected submit transaction is missing |
| `Psc.StepMoves` | crates/block-producer/src/psc.rs:315-363 | a tick appends and counts the block if and only if it is stored and follows the tip, a sent submission moves one block from local to submitted, a committed confirmation takes one block out of the window, and nothing else touches chain, pointers or counts |
| `Psc.StepEnabledExactly` | crates/block-producer/src/psc.rs:250-364 | which steps can be taken in which phase of the two tasks, and which phase they lead to |
| `Psc.Drains` | crates/block-producer/src/psc.rs:236-368 | the loop is never stuck: from every state of the invariant some schedule submits and confirms every block without producing more |
| `Psc.AlwaysEnabledExactly` | crates/block-producer/src/psc.rs:288-290 | the always-enabled assertion holds in every state if and only if both limits are at least one |
| `Psc.RunSafe` | crates/block-producer/src/psc.rs:161-368 | the same over every interleaving, with restarts onto any store a sync leaves |
| `Psc.LocalBound` | crates/block-producer/src/psc.rs:354-363 | only a resync can leave more local blocks than the limit |
| `Psc.Monotone` | crates/block-producer/src/psc.rs:315-355 | until a restart pointers only move forward and nothing stored is lost |
| `Psc.ProduceSubmitConfirm.constructor` | crates/block-producer/src/psc.rs:108-158 | after the first sync the invariant holds and the counts are the gaps |
| `Psc.ProduceSubmitConfirm.SpawnTasks` | crates/block-producer/src/psc.rs:250-287 | keeps the invariant; afterwards a submission runs if and only if a local block waits and the window has room, and a confirmation if and only if a submitted block waits; a running task is not replaced |
| `Psc.ProduceSubmitConfirm.Select` | crates/block-producer/src/psc.rs:315-364 | the select branches keep the invariant and are the steps of the machine, which `StepMoves` describes |
| `Psc.ProduceSubmitConfirm.AdvanceSubmit` | crates/block-producer/src/psc.rs:479-634 | keeps the invariant, the chain, the pointers and the counts; no stored transaction is replaced, one that is added submits the block after the last submitted one, and a finished submission has its transaction stored |
| `Psc.ProduceSubmitConfirm.AdvanceConfirm` | crates/block-producer/src/psc.rs:681-721 | keeps the invariant and everything stored, and the transaction it expects is there |
| `Psc.ProduceSubmitConfirm.Reset` | crates/block-producer/src/psc.rs:179-232 | establishes the invariant on the synced store: every block above the synced one waits to be submitted, nothing waits to be confirmed, and a submission runs if and only if there is such a block and the limit is not zero |
| `Psc.ProduceSubmitConfirm.RunLoop` | crates/block-producer/src/psc.rs:248-368 | the loop keeps the invariant and its assertion at every turn |
| `SyncL1.Revert` | crates/block-producer/src/sync_l1.rs:185-209 | cuts the chain, the stored transactions and both pointers back to the block |
| `SyncL1.DetachTruncates` | crates/store/src/transaction/store_transaction.rs:519-554 | moving a pointer only when it is at the detached block is, over the loop, lowering it to the cut |
| `SyncL1.FindAnchor` | crates/block-producer/src/sync_l1.rs:55-79 | the last confirmed block L1 still has, or block zero |
| `SyncL1.WalkList` | crates/block-producer/src/sync_l1.rs:117-180 | succeeds exactly for a list of linked blocks, ends with submitted equal to confirmed at its end and its transactions stored, and keeps later local blocks exactly when the list was stored already |
| `SyncL1.Collect` | crates/block-producer/src/sync_l1.rs:117-142 | the transactions after the first occurrence of the anchor in what the pages show |
| `SyncL1.SyncOnce` | crates/block-producer/src/sync_l1.rs:55-182 | the anchor is the last confirmed block L1 still has, or block zero, and is missing only when block zero is all there is and L1 lacks it; the sync succeeds exactly when the transactions seen after the anchor continue the chain; then both pointers are at the last of them, all are stored, and later local blocks are kept exactly when all were stored already |
| `SyncL1.VisitedExactly` | crates/block-producer/src/sync_l1.rs:122-132 | when the records of each transaction are next to each other, every transaction is seen once if and only if none straddles two pages |
| `SyncL1.ValidListDistinct` | crates/block-producer/src/sync_l1.rs:144-180 | a list that continues the chain repeats neither the anchor nor any other transaction |
| `SyncL1.SyncSucceedsExactly` | crates/block-producer/src/sync_l1.rs:117-180 | when the transactions after the anchor, each taken once, continue the chain, what the walk sees continues it, which is when `SyncOnce` succeeds, if and only if no transaction straddles two pages from the anchor on, the anchor included |
| `SyncL1.SeenTwiceExample` | crates/block-producer/src/sync_l1.rs:122-132 | two pages with one record each of one transaction show it twice |
| `SyncL1.AnchorStraddlesExample` | crates/block-producer/src/sync_l1.rs:122-142 | the anchor's own two records on two pages: nothing is new on L1, yet what the walk sees is no valid list |
| `Follower.LocalBlockExact` | crates/block-producer/src/block_sync_client.rs:329-371 | once a block numbered n is handled, blocks 0 to n are exactly its ancestors, unless it was added on a bad run, and no block below n was detached |
| `Follower.LocalBlockForgets` | crates/block-producer/src/block_sync_client.rs:329-371 | a block in place of another one drops the transaction hashes of exactly the detached blocks and puts a pointer above the cut at the cut; otherwise no pointer and no hash moves |
| `Follower.PointerMessages` | crates/block-producer/src/block_sync_client.rs:214-278 | a revert, submitted or confirmed message is followed if and only if the follower holds the block |
| `Follower.PointersStayOnChain` | crates/block-producer/src/block_sync_client.rs:214-278 | both pointers always name blocks of the chain |
| `Follower.RetainSameEffect` | crates/block-producer/src/block_sync_client.rs:279-327 | dropping mem-pool messages changes neither the chain nor a pointer nor where an error occurs |
| `Follower.RetainExactly` | crates/block-producer/src/block_sync_client.rs:186-203 | pruning drops exactly the messages about the mem pool and keeps every other one as often as it came |
| `Follower.DrainedIsUnpruned` | crates/block-producer/src/block_sync_client.rs:161-209 | what was forwarded leaves the state the whole stream would have left |
| `Follower.Client.HandleLocalBlock` | crates/block-producer/src/block_sync_client.rs:329-371 | the client's cut and update are those of the model for every block and global state; after success the node is valid if and only if the block was known, or was stored on no bad run under a global state that names it |
| `Follower.Client.CutBack` | crates/store/src/transaction/store_transaction.rs:481-557 | detaching down to a block drops the submit transaction hash of every detached block and lowers both pointers to the cut |
| `Follower.Buffer.Receive` | crates/block-producer/src/block_sync_client.rs:167-178 | the buffer stays within 1024 messages and loses nothing but mem-pool messages |
| `Follower.Buffer.Forward` | crates/block-producer/src/block_sync_client.rs:179-182 | messages leave in order |
| `Follower.Buffer.Prune` | crates/block-producer/src/block_sync_client.rs:186-203 | prunes exactly from 512 messages on and at a block |
| `Follower.Session` | crates/block-producer/src/block_sync_client.rs:161-209 | for every schedule of receiving and forwarding the drained stream has the effect of the unpruned one |
| `Replication.HandleReplicates` | crates/block-producer/src/block_sync_client.rs:329-371 | a block that continues a common prefix ends up right behind it whatever was above, and pointers inside the prefix do not move |
| `Replication.StepReplicates` | crates/block-producer/src/psc.rs:315-363 | after every step of the producer's machine but a restart, a follower that applies the messages has the producer's chain as a prefix, its pointers and, if it had them before, the transactions of all submitted blocks; a block published but not stored does no harm |
| `Replication.ResyncReplicatesExactly` | crates/block-producer/src/psc.rs:196-205 | after a restart of the machine the same chain and pointers are reached if and only if the follower has the synced block; otherwise it fails unchanged |
| `Replication.ScheduleReplicatesExactly` | crates/block-producer/src/psc.rs:161-368 | over every schedule of the producer's loop and tasks the follower fails if and only if some resync goes to a block it does not hold then, and otherwise ends with the producer's chain and pointers |
| `Replication.BackwardReplicates` | crates/block-producer/src/psc.rs:161-368 | while every resync goes back to a block of the producer's own chain, no schedule makes the follower fail |
| `Replication.NewBlockFromL1` | crates/block-producer/src/psc.rs:196-205 | producer and follower agree on the genesis block, the producer takes a new block from L1, and the follower fails |
| `Cbmt.VerifyTxProof` | gwos/c/validator_utils.h:975-1047 | accepts exactly one index, 32-byte lemmas and a climb that ends in the root |
| `Cbmt.ProofComplete` | gwos/c/validator_utils.h:975-1047 | the sibling path of every transaction is accepted, in a tree of any size |
| `Cbmt.ProofSound` | gwos/c/validator_utils.h:975-1047 | whatever the leaf index and the number of lemmas, an accepted transaction is the one at its index, as long as nothing the verifier hashed collides with anything the producer hashed |
| `Cbmt.PathClimbs` | crates/block-producer/src/produce_block.rs:88-94 | climbing the siblings of any node gives the root |
| `Uint256.OverflowAdd` | gwos/c/uint256.h:27-41 | sum and carry together are the exact sum |
| `Uint256.UnderflowSub` | gwos/c/uint256.h:43-61 | difference and borrow together are the exact difference |
| `Uint256.Compare` | gwos/c/uint256.h:65-75 | the order of the numbers |
| `Uint256.HigherLimbDecides` | gwos/c/uint256.h:65-75 | a difference in a higher limb outweighs all lower ones |
| `Uint256.ValueInjective` | gwos/c/uint256.h:6-8 | equal numbers have equal limbs |
| `Sudt.BalanceKeyInjective` | gwos/c/sudt_utils.h:52-62 | token and address can be read off a balance key |
| `Sudt.BalanceKeyBytes` | gwos/c/sudt_utils.h:43-62 | the very bytes of a balance key, that exactly those up to 64 bytes fit the buffer, and those of the supply key |
| `Sudt.SupplyKeyApart` | gwos/c/sudt_utils.h:43-47 | no balance shares its key with the total supply |
| `Sudt.Context.Transfer` | gwos/c/sudt_utils.h:152-216 | which code is returned when, and that success is a debit followed by a credit |
| `Sudt.Context.PayFee` | gwos/c/sudt_utils.h:226-245 | a fee is a transfer to the block producer, with the same codes and the same state after each of them |
| `Sudt.TransferConserves` | gwos/c/sudt_utils.h:152-216 | the sum over any distinct holders with both parties is kept, no other key changes, and a transfer to oneself changes no balance |
| `Sudt.OverflowUnreachable` | gwos/c/sudt_utils.h:195-200 | the overflow after the debit cannot happen while all balances together are below 2^256 |
| `Sudt.SupplyUntouched` | gwos/c/sudt_utils.h:152-216 | a transfer never touches a total supply |
| `Keys.KeyKindsDisjoint` | gwos/c/common.h:36-76 | storage, account fields, script-hash index and data index never overlap |
| `Keys.KeyBytes` | gwos/c/common.h:36-76 | the very bytes of every kind of key |
| `Keys.AccountKeyInjective` | gwos/c/common.h:36-45 | account and key can be read off a storage key |
| `Keys.FieldKeyInjective` | gwos/c/common.h:47-52 | account and field can be read off a field key |
| `Accounts.CreateKeepsExactly` | gwos/c/validator_utils.h:573-667 | creating the next account keeps ids and script hashes inverse if and only if the hash is new and not zero |
| `Accounts.CreateAllKeeps` | gwos/c/validator_utils.h:573-667 | the same over any sequence of creations, which get successive ids |
| `Accounts.Context.Create` | gwos/c/validator_utils.h:573-667 | which code is returned when, and what success stores |
| `Registry.Context.UpdateRegister` | gwos/c/gw_eth_addr_reg.h:23-86 | exactly when each code is returned, and both directions after success |
| `Registry.UpdateKeepsExactly` | gwos/c/gw_eth_addr_reg.h:23-86 | both directions stay inverse if and only if the script had no address or this one |
| `Registry.MovedScript` | gwos/c/gw_eth_addr_reg.h:23-86 | two accepted registrations of one script after which the two directions disagree |
| `Registry.RunKeeps` | gwos/c/gw_eth_addr_reg.h:23-86 | they stay inverse over any registrations and overwrites when every script fixes its address |
| `Registry.AddressRoundTrip` | gwos/c/common.h:266-293 | a stored address reads back |
| `Registry.EntryBytes` | gwos/c/common.h:238-264 | the very bytes of both keys and of a stored address |
| `Blake2F.FGeneric` | gwos-evm/c/contracts.h:555-704 | for every round count the unrolled, interleaved loop computes F of RFC 7693 |
| `Blake2F.TableReordered` | gwos-evm/c/contracts.h:518-529 | the table is the message schedule of section 2.7 of RFC 7693, reordered |
| `Blake2F.Rotations` | gwos-evm/c/contracts.h:548-552 | a left rotation by a negative count is the right rotation of section 2.3 of RFC 7693 |
| `Blake2F.ColumnsStep` | gwos-evm/c/contracts.h:580-636 | the first half of the loop body mixes the columns in order |
| `Blake2F.DiagonalsStep` | gwos-evm/c/contracts.h:638-694 | the second half mixes the diagonals in order |
| `Blake2F.Columns` | gwos-evm/c/contracts.h:580-636 | a half round over the columns is four independent mixes |
| `Blake2F.Diagonals` | gwos-evm/c/contracts.h:638-694 | a half round over the diagonals is four independent mixes |
| `Blake2FVectors.InitializationVector` | gwos-evm/c/contracts.h:530-534 | each word is the first 64 bits of the fractional part of the square root of its prime, by section 2.6 of RFC 7693 |
| `Blake2FVectors.VectorFour` | gwos-evm/c/tests/test_contracts.c:330-336 | the result of vector 4 of EIP-152, with no round |
| `Blake2FVectors.VectorSeven` | gwos-evm/c/tests/test_contracts.c:351-357 | the result of vector 7 of EIP-152, with one round |
| `ContractAddress.RlpEncodeSenderAndNonce` | gwos-evm/c/polyjuice_utils.h:181-218 | the buffer holds the RLP list of sender and nonce, and nothing behind it changes |
| `ContractAddress.ListRoundTrip` | gwos-evm/c/polyjuice_utils.h:181-218 | every list of strings, short or long, decodes back, by Appendix B of the Ethereum Yellow Paper |
| `ContractAddress.CreateRoundTrip` | gwos-evm/c/polyjuice_utils.h:181-218 | the preimage decodes back to sender and nonce |
| `ContractAddress.CreateBytes` | gwos-evm/c/polyjuice_utils.h:181-218 | the very bytes of the preimage for a nonce of every length |
| `ContractAddress.Create2Bytes` | gwos-evm/c/polyjuice.h:932-965 | 0xff, sender, salt and code hash, in this order |
| `ContractAddress.PreimagesInjective` | gwos-evm/c/polyjuice.h:932-965 | both forms determine their parts and never coincide |
| `Capacity.BuildOutputs` | crates/challenge/src/revert.rs:189-227 | the saturating, casting loop computes the plain split |
| `Capacity.CellsAdd` | crates/challenge/src/revert.rs:189-227 | the cells add up to the total and each fits 64 bits |
| `Capacity.LargeTotalsMeetMinimum` | crates/challenge/src/revert.rs:204-227 | every cell of a large total meets the minimum if and only if the minimum is at most 2^63 |
| `Capacity.RevertConserves` | crates/challenge/src/revert.rs:172-234 | with a rate of at most 100 and no saturation the challenger's cells hold the rewarded share of the stake and the challenge, the burnt cells the rest of the stake, and together exactly stake and challenge |
| `Capacity.CancelBurns` | crates/challenge/src/cancel_challenge.rs:459-514 | the cells of a cancelled challenge hold the burnt share, never more than its capacity |
| `MockBlockMargin.MarginOfMockBlock.CheckAndUpdate` | crates/challenge/src/offchain.rs:512-556 | a growing raw block is refused exactly when a packaged transaction would no longer fit, and the margin is then the minimum slack; under `Prev` it stays the minimum slack if and only if the raw block has the same size or the new transaction has the least slack anyway |
| `MockBlockMargin.FitExactly` | crates/challenge/src/offchain.rs:533-553 | the minimum slack is not negative if and only if everything packaged fits |
| `MockBlockMargin.Validator.VerifyWithdrawal` | crates/challenge/src/offchain.rs:239-309 | crashes if and only if the transaction is within the limit and the raw block is too large or the margin was taken by a request popped since; passes exactly when everything packaged still fits and the verification passes; a failed request leaves such a margin exactly when the margin had taken it |
| `MockBlockMargin.Validator.VerifyTransaction` | crates/challenge/src/offchain.rs:316-489 | the same for a transaction with its signature check and its two execution checks, each of which may be switched off |
| `MockBlockMargin.PoppedThenNext` | crates/challenge/src/offchain.rs:239-309 | a withdrawal that fits but fails its verification, after which the next one crashes |

## Left out

- RPC, indexer queries, p2p transport, signing, fee filling, configuration and metrics.
- RocksDB and the serialization of stored values.
- The virtual machine, the EVM and the cryptographic libraries: their results are parameters.
- The mem pool and its state.
- Finalized custodian totals, deposit and withdrawal bookkeeping of the store, and asset scripts. An error
  while storing custodian totals would leave the in-memory tip ahead of the store.
- Several L1 actions in one store transaction: a rollback inside such a batch drops the earlier ones.
- Timestamps and the finalized timepoint of the rollup cell; the field `rest` stands for what no modelled
  step reads.
- Parsing of L1 transactions and of the rollup cell.
- The skipped-invalid-block list, which would switch checkpoint checks off.
- Operator signals that revert blocks; the errors they raise are covered by a restart of the loop.
- Rollback of failed inner EVM calls.
- Total supply against the sum of balances: a failed transaction adds its fee to the supply on purpose.
- Parsing the 213-byte input of the BLAKE2 precompile and its gas.
- Capacity of the validator's key-value buffer: a store that fails for lack of room is not modelled.
- Capacity.BuildOutputs: the minimum cell capacity, which the source computes from the lock, is a parameter.
- SyncL1.SyncOnce: says nothing about the store after a list whose blocks are not linked.
- SyncL1.Collect: pages are read before the walk starts, while the source fetches them as it goes.
- Blake2F.FGeneric: two additions in a row are written as one, and each half-step of seven statements is a
  method.
- Nested RLP lists, which no preimage has.
- The off-chain validator's refusal of duplicate requests, which changes nothing, and its reset for a new
  block.
- Journal.StateDb.InsertScript: says nothing about snapshots when a hash comes with different code.
- Journal.StateDb.InsertData: says nothing about snapshots when a hash comes with different data.
- BlockGenerator.NoReplay: assumes that no backend run in the chain wraps a nonce; `NonceWraps` shows one that
  does.
