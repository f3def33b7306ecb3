# A verified model of the arknet ledger core

arknet is a layer-1 chain for paid inference jobs. This project models its deterministic
core in Dafny and proves what that core is meant to guarantee.

* **The ledger.** `LedgerSpec` says what each of the thirteen transactions does as a function of
  two column sets: `base`, the state committed before the block, and `live`, what a commit would
  leave after the writes buffered so far. `Store` holds the chain state and the block context
  that buffers writes (a write batch, pending tree updates, overlays). `TxApply` and
  `StakeApply` are the handlers, run on that context and proved against `LedgerSpec`. `Effects` says
  of each transaction exactly when it lands and what every account and record then holds, with
  limits and fractions written as numbers.
* **What a commit adds.** `Slashing` (cuts stakes and unbondings for proven disputes),
  `ValidatorSet` (ranks and refreshes validators), `Emission` (the epoch's mint), `Delegators`
  (pro-rata split), `Governance` (tally and epoch pass). `SlashEffects`, `Payouts` and `Verdicts`
  say in numbers what slashes take and pay, what the mint pays to every account and what becomes of
  every proposal. `Ordering` and `KeyOrder` give the key order of the scans.
* **Blocks and chains.** `Blocks` builds and commits blocks, `Replay` relates the proposer's
  run to the validators', `Acceptance` says which built blocks are accepted, `Chain` folds
  decided blocks, accepted or refused, into runs. `Nonces`, `Unbondings`, `Receipts`, `Lifecycle`,
  `Membership`, `Duplicates`, `Disputes` and `Registries` prove what whole blocks and runs keep,
  `BlockGas` how the gas of a block relates to its limit, `NoOverflow` when no block aborts, and
  `Stall` when no block is ever accepted again.
* **Conservation.** `Supply` has the balance equation of each transaction, `Conservation` that of
  a transaction list and the governance pass, `SlashSupply` that of slashes, `ChainSupply` that of
  whole chains. `Rewards` follows each queued reward to its end, `SupplyCap` bounds all mints.
* **Around the ledger.** `Mempool` (three indexes refining one ranked list), `FeeMarket` (EIP-1559,
  "Specification"), `Merkle` (receipt trees and proofs), `Keys` (database key layout), `Utf8`
  (streaming decoder), `Gguf` (model file header, GGUF version 3), `FreeTier` (hourly and daily
  quotas).

`Numeric`, `Division` and `MapSums` are helpers, `Types` the data model. Integers are bounded as
in the source; saturating operations are written out, and because the release profile keeps
overflow checks on, any other overflow is the outcome `Panicked` (or `Overflowed` of a block),
after which nothing buffered survives. Digests, state roots and hashed addresses are free
constructors of what was hashed, so distinct inputs give distinct digests. `dafny verify
dfyconfig.toml` checks the project.

## Where the code differs from its documentation

The model follows the code.

* A rejected transaction is documented to leave the state unchanged. A rejected receipt batch
  keeps the marks it made (`Replay.RejectedLeavesLedgerExactly` gives the exact condition). For
  lists of transactions at large these marks can make a proposer keep a dispute that the replay
  drops (`Replay.RejectedBatchCarriesDispute`); the pool takes neither batches nor disputes, so
  blocks built from it replay in full (`Blocks.BuildBlock`).
* The header root covers the proposer's escrow refunds, but commit does not replay them; nor does
  the builder run the mint and the governance pass of an epoch boundary. A block built where any
  of these moves a balance is refused by everyone, its proposer included
  (`Acceptance.BuiltBlockCommitsExactly`, `Acceptance.BoundaryBlockDecided`,
  `Acceptance.BoundaryBlockCommitsExactly`, `Acceptance.ExpiredEscrowStalls`). The refusal is
  permanent: the next proposer meets the same state, so one expired escrow, or at a boundary one
  reward to pay or one unvoted deposit to return, ends the chain (`Stall.ExpiredEscrowStallsForEver`,
  `Stall.StalledForEver`, `Stall.BoundaryRefuses`). The refund comment says "before the current
  height"; the code also refunds at equality.
* The pool charges a transaction its declared fee against the block's gas limit, the ledger charges
  an escrow lock 50,000 whatever it declares. A block can therefore use more gas than its limit
  (`BlockGas.GasWithinLimitExactly` is the exact condition, `BlockGas.FreeLocksLand` a family of
  inputs without bound).
* Escrows, proposals, votes, models and the proposal counter are read from committed state only.
  A second lock, settlement or proposal on the same key in one block applies and breaks
  conservation by exactly the amount `Supply.Gap` names (`Conservation.ConservesExactly`); a
  second vote or model registration replaces the first (`Duplicates.DuplicateVotesRefusedExactly`,
  `Duplicates.SecondRegistrationLandsExactly`). The pool takes no settlements and gives each voter
  one slot, so blocks filled from it hold no second settlement
  (`Conservation.SecondSettlePaysAgain` needs another source) and no second vote
  (`Duplicates.PoolVotesOnce`), and never create value (`Stall.PoolNeverAdds`).
* Slashes read committed stakes and write them back: a withdrawal earlier in the block is undone
  while its unbonding stays, and a second slash pays its reporter again for nothing
  (`SlashSupply.SlashUndoesWithdrawal`, `SlashSupply.SecondSlashPaysAgain`;
  `SlashSupply.SlashConservesExactly` is the condition). The pool takes neither disputes nor stake
  operations, so blocks filled from it do neither.
* The comment on slashing says accepted disputes slash; every listed dispute whose hashes differ
  does, also one that the replay rejected because its job is not anchored
  (`Disputes.SlashesWithoutLandingExactly`, `Disputes.RejectedDisputeSlashes`;
  `Disputes.OnlyLandedSlashExactly` says for which lists the comment is right).
* A matured unbonding is documented to be paid to its delegator or else the operator. Without a
  named delegator it is paid to whoever completes it, and any signer can withdraw a node's
  self-stake (`Unbondings.PayeeFixedExactly`, `Unbondings.StrangerTakesSelfStake`). Unbonding
  identifiers are documented per node and are global.
* The supply cap and the carry-over of unspent budget never take effect, because the emission
  state is rebuilt at every boundary (`Emission.CapNeverBinds`, `SupplyCap.CarryOverLost`). Epoch
  mints stay below the cap all the same, as the budgets of all epochs together do
  (`SupplyCap.ChainMintsBelowCap`); only reward transactions, which no budget limits, could pass it
  (`SupplyCap.AllMintsBelowCap`).
* A reward cut to zero by the budget stays queued (`Rewards.StaysQueuedExactly`), but no later mint
  looks at it. The same becomes of rewards queued by the boundary block itself, since the mint reads
  committed ones (`Rewards.BoundaryLeavesStale`, `Rewards.StaleForEver`), and of every settlement's
  reward, recorded with zero tokens (`Rewards.SettlementsNeverPaid`).
* The comment on the recompute says that this block's stake deposits count for the next epoch's
  validators. Only committed stakes are scanned, so the block's own count for nothing
  (`Membership.ElectionIgnoresBlock`), and as only existing records are ranked nobody ever joins
  (`Membership.NobodyJoins`). Votes cast in the boundary block are likewise not tallied
  (`Governance.CountVotes`).
* Validator records that rank below the first 21 stay as they are, and the active count is capped
  below the count that would end the bootstrap window (`ValidatorSet.RotationExactly`).
* The reward split is 80% compute, 7% verifier, 3% burned, 5% delegators (paid to compute by the
  ledger's own split) and the remainder to the treasury; the router is paid nothing.
* Quorum, approval and veto thresholds are documented as strict and are inclusive
  (`Governance.EvaluateExactly`).
* The documented limit of an eighth on a step of the base fee holds for every block at or under
  target; above it exactly when the fee is at least 8 and either the excess is small or the fee
  saturates (`FeeMarket.EighthBoundExactly`). Up to twice the target only the fee matters
  (`FeeMarket.TwiceTargetKeepsBound`), at three times the target a fee of 8 becomes 10
  (`FeeMarket.TripleTargetBreaksBound`), and escrow locks without fee can fill such a block
  (`BlockGas.FreeLocksBreakFeeBound`).
* The Merkle tags do not prevent the repeated-last-leaf collision
  (`Merkle.RepeatedLastLeafSameRoot`).
* Readmission restores the transactions but not their arrival order
  (`Mempool.OrderAfterRoundTrip`).

## Model

| member | source | states |
|---|---|---|
| `Replay.ReplayEquivalence` | crates/consensus/src/commit.rs:97-120 | for every committed state and every transaction list, replaying what the proposer kept reproduces every column except receipt marks, and the replay's marks are a subset; every kept transaction applies again with the same gas exactly when each kept dispute is about a job anchored before it by what was kept or committed |
| `Replay.ReplayWithoutDisputes` | crates/consensus/src/block_builder.rs:105-124 | without disputes the replay applies every kept transaction, with the same total gas |
| `Replay.MarkFreeReplay` | crates/consensus/src/block_builder.rs:105-124 | without disputes and batches replaying the kept transactions gives back the whole pass: every column, the gas and the list |
| `Replay.RejectedLeavesLedgerExactly` | crates/chain/src/apply.rs:34-42 | a rejected transaction leaves the state unchanged if and only if it is not a receipt batch that passes its root check and whose first job is new; otherwise only receipt marks differ |
| `Replay.RejectedBatchExactly` | crates/chain/src/apply.rs:257-275 | a rejected batch never queues rewards, and leaves no mark exactly when it fails before its first receipt |
| `Replay.RejectedBatchCarriesDispute` | crates/chain/src/apply.rs:329-352 | witness, for lists the pool cannot produce: a dispute kept because of a rejected batch's mark is dropped on replay |
| `Replay.IgnoresMarks` | crates/chain/src/apply.rs:130-213 | every transaction but batches and disputes neither reads nor writes receipt marks |
| `Blocks.ApplyAndKeep` | crates/consensus/src/block_builder.rs:105-124 | the proposer's loop computes the fold of the transaction steps: final ledger, gas and kept list, or an abort on overflow |
| `Blocks.ReplayAll` | crates/consensus/src/commit.rs:97-120 | the validators' loop computes the same fold and counts what applied |
| `Blocks.RefundExpiredEscrows` | crates/consensus/src/block_builder.rs:174-222 | every committed locked escrow past its timeout is deleted and each user gains exactly the sum of its expired escrows (clamped), whatever the scan order; nothing else changes |
| `Blocks.ExpiresExactly` | crates/consensus/src/block_builder.rs:193-198 | a refund is due exactly from 7,200 blocks after the lock on, while it is locked |
| `Blocks.BuildBlock` | crates/consensus/src/block_builder.rs:96-171 | the block holds exactly the drained transactions that applied, all of kinds the pool takes, and replaying them gives the proposer's whole ledger, gas and list again; the header root is that of the accounts after transactions and refunds; the state and its tree are as before |
| `BlockGas.DueWithinDeclaredExactly` | crates/consensus/src/mempool.rs:360-388 | what the ledger charges is within what the pool counts for every kind but an escrow lock whose fee is below 50,000 |
| `BlockGas.PassGas` | crates/consensus/src/block_builder.rs:105-124 | the gas of a built block is the sum of what its kept transactions are due, saturated |
| `BlockGas.GasWithinLimitExactly` | crates/consensus/src/block_builder.rs:102-124 | a built block is within a gas limit if and only if what is declared plus what locks underpay is within the limit plus what others overpay, or the limit is the 64-bit maximum |
| `BlockGas.PaidLocksKeepLimit` | crates/consensus/src/mempool.rs:283-318 | where every drained lock declares at least 50,000 the block is within the limit it was drained for |
| `BlockGas.UnderpaidLockExceeds` | crates/chain/src/apply.rs:362-419 | one underpaid lock that lands makes a block use more than it declares |
| `BlockGas.FreeLocksLand` | crates/chain/src/apply.rs:383-419 | any number of locks without fee, of a user who can pay them, all land, declare nothing and use 50,000 each |
| `BlockGas.FreeLocksBreakFeeBound` | crates/chain/src/fee_market.rs:18-23 | 900 of them declare nothing and raise a base fee of 8 to 10 |
| `Blocks.CommitBlock` | crates/consensus/src/commit.rs:92-250 | all or nothing: transactions, slashes, and at epoch boundaries rotation, mint and governance, are written and the transactions leave the pool exactly when the resulting account root is the header's; else state and pool are unchanged |
| `Blocks.DispatchSlashes` | crates/consensus/src/commit.rs:122-146 | one slash per listed dispute with differing hashes, applied or not |
| `Disputes.DisputeLandsExactly` | crates/chain/src/apply.rs:329-352 | a dispute lands exactly when its hashes differ and its job is marked at its turn; it never aborts and changes nothing |
| `Disputes.SlashesAreAccusations` | crates/consensus/src/commit.rs:122-146 | the slashes of any list are those of its differing-hash disputes in order, landed or not |
| `Disputes.SlashesWithoutLandingExactly` | crates/consensus/src/commit.rs:122-146 | in any list a dispute slashes without landing if and only if its hashes differ and its job is unmarked at its turn |
| `Disputes.OnlyLandedSlashExactly` | crates/consensus/src/commit.rs:122-146 | only landed disputes slash, as documented, exactly for lists in which every dispute with differing hashes finds its job marked |
| `Disputes.RejectedDisputeSlashes` | crates/consensus/src/commit.rs:122-146 | witness family: a dispute about an unanchored job, alone in a block, lands nothing and takes exactly 5% of every compute stake of the node |
| `Blocks.Rotate` | crates/consensus/src/commit.rs:152-176 | the boundary work: rotation, mint, governance pass; nothing off boundaries |
| `NoOverflow.StepNeverAborts` | crates/chain/src/apply.rs:130-213 | a transaction aborts only at named limits: a counter at its maximum or a product of the reward split |
| `NoOverflow.RunNeverAborts` | crates/consensus/src/block_builder.rs:105-124 | with room in the counters for the length of a list and splittable rewards no transaction of it aborts |
| `NoOverflow.SlashesNeverOverflow` | crates/consensus/src/commit.rs:122-146 | no slash of any list overflows while the holdings times 100 fit in 128 bits |
| `NoOverflow.MintNeverOverflows` | crates/consensus/src/commit.rs:267-362 | no mint of a boundary with at most 2^32 - 1 queued rewards overflows while the stakes fit in 128 bits |
| `NoOverflow.VerdictNeverOverflows` | crates/governance/src/proposals.rs:115-145 | no verdict overflows while the balances times 10,000 fit in 128 bits |
| `NoOverflow.PassNeverOverflows` | crates/consensus/src/commit.rs:376-475 | nor does a governance pass, while balances and deposits times 10,000 do |
| `NoOverflow.RunCreatesAtMost` | crates/chain/src/apply.rs:130-213 | what a list mints and what its stale reads add is at most what its reward transactions name, its settlements pay |
| `NoOverflow.BlockNeverOverflows` | crates/consensus/src/commit.rs:92-250 | no block aborts on a ledger whose counters have room and whose holdings, with all the block can create, times 10,000 fit in 128 bits |
| `Acceptance.BuiltBlockCommitsExactly` | crates/consensus/src/block_builder.rs:126-129 | away from epoch boundaries a block that accuses nobody is accepted on the state it was built from if and only if every expired escrow is worth nothing or belongs to a full balance, since commit does not replay refunds |
| `Acceptance.BoundaryIdleExactly` | crates/consensus/src/commit.rs:152-176 | mint and governance pass go through and move no balance if and only if no committed reward of the ending epoch is worth anything and every proposal whose voting has ended is vetoed or has no deposit |
| `Acceptance.BoundaryBlockCommitsExactly` | crates/consensus/src/commit.rs:187-196 | at an epoch boundary with no refund due, a built block is accepted if and only if these two conditions on the committed state hold, since the builder runs neither |
| `Acceptance.BoundaryBlockDecided` | crates/consensus/src/commit.rs:152-196 | at every epoch boundary, whatever is due, a built block is accepted if and only if mint and governance pass give each account exactly what the builder's refunds gave it |
| `Acceptance.ExpiredEscrowStalls` | crates/consensus/src/block_builder.rs:166-171 | one expired locked escrow of positive amount, its user's balance below the 128-bit maximum, makes the built block change nothing |
| `Stall.PoolNeverAdds` | crates/consensus/src/mempool.rs:353-388 | blocks filled from the pool never increase the sum of all holdings |
| `Stall.PoolKeepsEscrow` | crates/chain/src/apply.rs:362-381 | nothing the pool takes touches a committed escrow |
| `Stall.RefundRefuses` | crates/consensus/src/block_builder.rs:166-222 | one expired escrow of positive amount refuses every block filled from a pool, off boundaries and at idle ones, while all holdings fit in 128 bits |
| `Stall.UnvotedIsReturned` | crates/consensus/src/commit.rs:400-450 | boundary witness: the deposit of a proposal without votes whose voting has ended is returned, so the deposits are not kept |
| `Stall.BoundaryRefuses` | crates/consensus/src/commit.rs:152-196 | a queued reward worth something, or such a proposal, refuses every boundary block filled from a pool with no refund due |
| `Stall.StalledForEver` | crates/consensus/src/commit.rs:187-196 | however many such blocks are proposed on a state, none is accepted and it stays what it is |
| `Stall.ExpiredEscrowStallsForEver` | crates/consensus/src/block_builder.rs:166-222 | from one expired escrow of positive amount on, whatever proposers fill from their pools, each on the state of its turn, off boundaries or at idle ones, nothing is ever accepted or lands again |
| `Acceptance.CommittedIsBuilt` | crates/consensus/src/commit.rs:187-196 | an accepted block leaves the ledger its proposer computed, sealed, and at an epoch boundary after the boundary work |
| `Acceptance.ProposeAndCommit` | crates/consensus/src/commit.rs:92-250 | the two procedures run one after the other on the pool: committed exactly under those conditions, and then with the proposer's ledger |
| `Store.OverlaysRefineBatch` | crates/chain/src/state.rs:813-836 | for every sequence of buffered writes, reading through the overlays answers as a database updated in place would; deleted and empty read alike |
| `Store.TreeMirrorsAccounts` | crates/chain/src/state.rs:844-860 | the queued tree updates lead from the old accounts column to the new one, and no empty account is ever stored |
| `Store.State.constructor` | crates/chain/src/state.rs:182-238 | the rebuild at start-up gives the tree of the non-empty accounts on disk |
| `Store.Reopen` | crates/chain/src/state.rs:212-230 | a reopened state has the root it had |
| `Store.BlockCtx.PreviewStateRoot` | crates/chain/src/state.rs:1186-1217 | the root a commit would give, with the shared tree restored exactly, however often an account is written |
| `Store.BlockCtx.RollBack` | crates/chain/src/state.rs:1186-1217 | restoring the stashed leaves in reverse gives back the tree |
| `Store.BlockCtx.Commit` | crates/chain/src/state.rs:1219-1234 | writes exactly what the block would read back and returns the root of the new accounts |
| `Store.BlockCtx.GetAccount` | crates/chain/src/state.rs:1163-1168 | reads the block's own account writes |
| `Store.BlockCtx.GetStake` | crates/chain/src/state.rs:933-946 | reads the block's own stake writes |
| `Store.BlockCtx.GetUnbonding` | crates/chain/src/state.rs:948-959 | reads the block's own unbonding writes |
| `Store.BlockCtx.NextUnbondId` | crates/chain/src/state.rs:961-967 | reads the block's own counter |
| `Store.BlockCtx.IsReceiptSeen` | crates/chain/src/state.rs:980-986 | sees the block's own marks |
| `Store.BlockCtx.SetAccount` | crates/chain/src/state.rs:844-860 | buffers one account write; an empty account is a deletion and a zero leaf |
| `Store.BlockCtx.SetStake` | crates/chain/src/state.rs:862-883 | buffers one stake write; a zero stake is a deletion |
| `Store.BlockCtx.SetUnbonding` | crates/chain/src/state.rs:885-895 | buffers one unbonding |
| `Store.BlockCtx.DeleteUnbonding` | crates/chain/src/state.rs:897-905 | buffers one deletion |
| `Store.BlockCtx.MarkReceiptSeen` | crates/chain/src/state.rs:988-994 | buffers one mark |
| `TxApply.ApplyTx` | crates/chain/src/apply.rs:130-213 | runs the handler of the transaction's variant, all thirteen of them, on the buffered block, with the outcome and the whole new ledger of the step function |
| `TxApply.ApplyTransfer` | crates/chain/src/apply.rs:867-923 | checks in order, then debits amount and fee, uses the nonce and credits the recipient |
| `Effects.TransferLandsExactly` | crates/chain/src/apply.rs:867-905 | a transfer lands if and only if it goes to somebody else, declares at least 21,000, carries the sender's nonce and amount and fee are covered; it aborts only at the last nonce |
| `Effects.TransferMoves` | crates/chain/src/apply.rs:905-920 | then the sender has amount and fee less and the next nonce, the recipient the amount more, clamped, and nothing else differs |
| `TxApply.ApplyReceiptBatch` | crates/chain/src/apply.rs:227-325 | recomputes the Merkle root, marks jobs until a repeat, queues bootstrap rewards |
| `Effects.BatchLandsExactly` | crates/chain/src/apply.rs:227-275 | a batch lands if and only if it is not empty, carries the root of its receipts and names distinct jobs never marked |
| `Effects.BatchMarks` | crates/chain/src/apply.rs:257-325 | then exactly its jobs are marked with the height |
| `Effects.BatchQueues` | crates/chain/src/apply.rs:276-325 | and in the bootstrap window each receipt queues a reward by its tokens to its compute node, at 1.5 times for attested nodes |
| `TxApply.ApplyDispute` | crates/chain/src/apply.rs:329-352 | accepted exactly for differing hashes and a marked job |
| `TxApply.ApplyEscrowLock` | crates/chain/src/apply.rs:362-419 | debits amount and fee, uses the nonce and records the lock |
| `Effects.LockLandsExactly` | crates/chain/src/apply.rs:362-399 | a lock lands if and only if it is worth something, its job has no committed escrow, it carries the nonce and amount and fee are covered |
| `Effects.LockTakes` | crates/chain/src/apply.rs:383-419 | then its user has amount and fee less and the next nonce, and the amount is locked under the job |
| `TxApply.ApplyEscrowSettle` | crates/chain/src/apply.rs:422-491 | splits the committed amount, records the reward and marks the escrow settled |
| `Effects.SettleLandsExactly` | crates/chain/src/apply.rs:422-450 | a settlement lands if and only if its escrow is committed and locked; it aborts only where 80 times the amount overflows |
| `Effects.SettlePays` | crates/chain/src/apply.rs:443-491 | then every address gains its part of the committed amount, clamped: compute 80% and 5%, the verifier 7%, the treasury the rest but the burned 3%, sums where payees coincide |
| `TxApply.ApplyRewardMint` | crates/chain/src/apply.rs:495-527 | splits newly minted tokens |
| `Effects.RewardPays` | crates/chain/src/apply.rs:495-527 | a reward transaction pays every address the same parts of its total |
| `Effects.DistinctParts` | crates/chain/src/apply.rs:821-833 | where the payees differ each has exactly its fraction, and nobody else anything |
| `TxApply.CreditRewardSplit` | crates/chain/src/apply.rs:813-841 | 80% and 5% to compute, 7% to the verifier, the remainder to the treasury; aborts when `total * 80` overflows |
| `TxApply.ApplyRegisterModel` | crates/chain/src/apply.rs:535-574 | debits the deposit and records the manifest |
| `Effects.ModelLandsExactly` | crates/chain/src/apply.rs:535-574 | a model lands if and only if its name is not empty and not committed and a deposit of at least 10,000 ARK is covered, which the registrar pays |
| `TxApply.ApplyGovProposal` | crates/chain/src/apply.rs:724-758 | debits the deposit and records the proposal under the committed counter |
| `Effects.ProposalLandsExactly` | crates/chain/src/apply.rs:724-758 | a proposal lands if and only if a deposit of at least 10,000 ARK is covered by its signer, who pays it; it opens in discussion |
| `TxApply.ApplyGovVote` | crates/chain/src/apply.rs:768-803 | records a vote on a committed proposal in its voting phase, unless one is committed |
| `Effects.VoteLandsExactly` | crates/chain/src/apply.rs:768-803 | a vote lands if and only if its proposal is committed and in voting and its voter has no committed vote on it |
| `StakeApply.ApplyDeposit` | crates/chain/src/stake_apply.rs:76-155 | role minimum outside bootstrap, then balance to stake; the whole new ledger and outcome |
| `Effects.DepositLandsExactly` | crates/chain/src/stake_apply.rs:76-155 | a deposit lands if and only if it names no delegator or its signer, leaves the position with 50,000, 8,000, 10,000 or 5,000 ARK by role or falls in the bootstrap window, and is covered; it moves the amount from the signer into the position, which keeps its bonding height |
| `StakeApply.ApplyWithdraw` | crates/chain/src/stake_apply.rs:157-202 | stake to a new unbonding under the next identifier; the whole new ledger and outcome |
| `Effects.WithdrawLandsExactly` | crates/chain/src/stake_apply.rs:157-202 | a withdrawal lands if and only if the signer's delegation, or else the self-stake, holds the amount; it moves it into an unbonding of 1,209,600 blocks |
| `StakeApply.ApplyComplete` | crates/chain/src/stake_apply.rs:204-238 | pays a due unbonding and deletes it; the whole new ledger and outcome |
| `Effects.CompleteLandsExactly` | crates/chain/src/stake_apply.rs:204-238 | a completion lands if and only if the unbonding is due and names no delegator or the signer, who is paid |
| `StakeApply.ApplyRedelegate` | crates/chain/src/stake_apply.rs:240-299 | moves stake between nodes after the cooldown; the whole new ledger and outcome |
| `Effects.RedelegateLandsExactly` | crates/chain/src/stake_apply.rs:240-299 | a redelegation lands if and only if it names two nodes and the position holds the amount and was opened 86,400 blocks ago; the amount moves to the same delegator's position with the target |
| `StakeApply.ApplyStakeOp` | crates/chain/src/stake_apply.rs:38-74 | dispatches the four operations; the whole new ledger and outcome |
| `TxApply.ApplyRegisterTee` | crates/chain/src/apply.rs:629-656 | shape checks of the quote, then one record; the whole new ledger and outcome |
| `TxApply.ApplyRegisterGateway` | crates/chain/src/apply.rs:664-702 | checks of the URL, then one record; the whole new ledger and outcome |
| `Effects.GatewayLandsExactly` | crates/chain/src/apply.rs:664-702 | a gateway is recorded if and only if its address has 1 to 512 bytes and starts with "https://" where it claims to |
| `TxApply.ApplyUnregisterGateway` | crates/chain/src/apply.rs:705-713 | deletes one record |
| `Registries.TeeLandsExactly` | crates/chain/src/apply.rs:589-650 | a capability is recorded exactly when its scheme is active and its quote has a size and header its platform allows |
| `Registries.ChainRegistry` | crates/chain/src/apply.rs:629-713 | over every chain every recorded capability and gateway passes the shape checks |
| `LedgerSpec.SplitAddsUp` | crates/chain/src/apply.rs:821-828 | the five parts of a reward are non-negative and add up to the whole |
| `Supply.StepTotal` | crates/chain/src/apply.rs:130-213 | for every applied transaction: balances, stakes, unbondings, locked escrows and open deposits afterwards, plus what is burned, equal those before, plus what is minted, plus an explicit gap for stale reads; so no credit clamps while the total fits in 128 bits |
| `Supply.StakeOpConserves` | crates/chain/src/stake_apply.rs:76-299 | stake operations conserve exactly |
| `Supply.TransferredSum` | crates/chain/src/apply.rs:896-918 | a transfer destroys exactly fee times base fee |
| `Supply.SplitSum` | crates/chain/src/apply.rs:813-841 | a reward split pays out all but the burned 3% |
| `Supply.LockingSum` | crates/chain/src/apply.rs:362-419 | locking moves the amount out of the balance, burns the fee and loses whatever was locked under the job |
| `Supply.SettlingSum` | crates/chain/src/apply.rs:422-491 | settling pays out the committed amount against what is still locked |
| `Slashing.ApplySlash` | crates/staking/src/slashing.rs:120-212 | the committed stakes and immature unbondings of node and role are cut by the offence's percentage and written back, the total split between burn, reporter and treasury; report and whole new ledger, or overflow |
| `Slashing.CutStakes` | crates/staking/src/slashing.rs:133-159 | every committed stake of node and role once, in whatever order |
| `Slashing.TrimUnbondings` | crates/staking/src/slashing.rs:161-183 | every committed immature unbonding once, in whatever order |
| `SlashEffects.PenaltiesAre` | crates/staking/src/slashing.rs:79-96 | what each offence takes of an amount: everything, 10%, 5%, 2% or 1% |
| `SlashEffects.SlashTakes` | crates/staking/src/slashing.rs:120-212 | one dispute with differing hashes takes 5% of each committed compute stake and immature compute unbonding of the node, pays 5% of that to the reporter and what 90% burned leaves to the treasury, and changes nothing else |
| `SlashEffects.SlashOverflowsExactly` | crates/staking/src/slashing.rs:133-190 | it overflows if and only if such an amount times 5 or the total times 90 does |
| `SlashEffects.AccusedStakesCut` | crates/consensus/src/commit.rs:122-146 | over all disputes of a block, a compute stake of an accused node is the committed one less 5%, however often the node is accused, and every other stake as the transactions left it |
| `SlashEffects.AccusedPendingCut` | crates/consensus/src/commit.rs:122-146 | and so is an immature compute unbonding |
| `SlashEffects.SlashesPay` | crates/consensus/src/commit.rs:122-146 | every account gains exactly its parts of all accusations, repeated ones included |
| `SlashSupply.SlashConservesExactly` | crates/staking/src/slashing.rs:120-212 | a slash destroys exactly what it burns if and only if the block has left as much at the positions it cuts as was committed there |
| `SlashSupply.SlashedWorth` | crates/staking/src/slashing.rs:120-212 | in every case the ledger changes by the burn and by the difference between committed and live at those positions |
| `SlashSupply.SlashUndoesWithdrawal` | crates/staking/src/slashing.rs:143-159 | a withdrawal earlier in the block is undone while its unbonding stays: its amount exists twice |
| `SlashSupply.SecondSlashPaysAgain` | crates/staking/src/slashing.rs:143-159 | a second slash of a node in a block cuts nothing more and pays reporter and treasury again |
| `SlashSupply.UndisturbedHasNoGap` | crates/staking/src/slashing.rs:120-212 | a slash of a node whose positions the block has not touched conserves |
| `SlashSupply.SlashAllTotal` | crates/consensus/src/commit.rs:122-146 | the equation for all slashes of a block |
| `ValidatorSet.RankCandidates` | crates/staking/src/validator_set.rs:52-68 | every validator record with the saturating sum of its stakes, ranked |
| `ValidatorSet.CandidatesAreTheBest` | crates/staking/src/validator_set.rs:48-68 | a validator is a candidate exactly when fewer than 21 rank above it |
| `ValidatorSet.RecomputeValidatorSet` | crates/staking/src/validator_set.rs:76-104 | refreshes the candidates and removes those without stake after the bootstrap window; the whole new ledger |
| `ValidatorSet.RotationExactly` | crates/staking/src/validator_set.rs:76-104 | which records leave, stay as they are, or are refreshed: no record outside the first 21 is ever removed |
| `ValidatorSet.BestLookedAt` | crates/staking/src/validator_set.rs:61-66 | no record left aside has more stake than one looked at; ties go to the smaller operator address |
| `ValidatorSet.RefreshedExactly` | crates/staking/src/validator_set.rs:85-95 | a record that stays is freed and has a voting power of one per whole ARK of its validator stakes, at least one |
| `Membership.AcceptedSet` | crates/staking/src/validator_set.rs:76-104 | the validators after an accepted block are a function of what was committed before it and of its height |
| `Membership.ElectionIgnoresBlock` | crates/consensus/src/commit.rs:88-91 | so two accepted blocks of one height elect the same validators, whatever they stake or slash |
| `Membership.NobodyJoins` | crates/staking/src/validator_set.rs:52-68 | over every chain nobody becomes a validator who was none at genesis |
| `Membership.NobodyLeavesEarly` | crates/staking/src/validator_set.rs:76-104 | and none leaves while the heights are within the bootstrap window |
| `Emission.EpochBoundaryMint` | crates/consensus/src/commit.rs:267-362 | every committed reward of the ending epoch, in key order, or overflow; the whole new ledger |
| `Emission.MintReward` | crates/consensus/src/commit.rs:298-347 | one reward: its amount within what is left of the budget, paid out in shares, and its removal |
| `Payouts.BudgetExactly` | crates/payments/src/emission.rs:60-113 | the budget of every epoch: 120, 105, 90 and 80 million ARK in the first years, then 100 million halved once every four years, over 8,760 epochs; none from year 524 on |
| `Payouts.WorthExactly` | crates/payments/src/rewards.rs:100-117 | a queued reward is worth its tokens at the rate budget over all tokens of the epoch, scaled by its two multipliers |
| `Payouts.MintOnePays` | crates/consensus/src/commit.rs:298-347 | one reward is paid as far as the budget goes: every account gains 80% as compute, 7% as verifier, the remainder as treasury and its share of the delegators' 5%; it leaves the queue exactly when something is paid |
| `Payouts.MintPays` | crates/consensus/src/commit.rs:267-362 | over the whole mint every account gains exactly its parts of all rewards, clamped once |
| `Emission.MintSum` | crates/payments/src/emission.rs:149-156 | a mint never exceeds the epoch's budget, and balances grow by what is minted less what is burned |
| `Emission.RewardFits` | crates/payments/src/rewards.rs:100-125 | with the rate of its epoch no queued reward overflows |
| `Emission.CapNeverBinds` | crates/payments/src/emission.rs:149-156 | the supply cap never limits a reward, since the emission state starts afresh at every boundary |
| `Emission.MintIdleExactly` | crates/consensus/src/commit.rs:267-362 | a mint changes nothing if and only if no queued reward of the ending epoch is worth anything; then nothing is dequeued either |
| `Rewards.MintDequeuesExactly` | crates/consensus/src/commit.rs:298-347 | a mint dequeues exactly the rewards it pays |
| `Rewards.StaysQueuedExactly` | crates/consensus/src/commit.rs:314-317 | a reward of the ending epoch stays queued if and only if it is worth nothing or those before it in key order have used up the budget |
| `Rewards.NextQueue` | crates/consensus/src/commit.rs:92-250 | an accepted block removes what its mint pays; any other entry is as before, or queued anew for the current epoch by a landed batch or settlement of its job |
| `Rewards.BoundaryLeavesStale` | crates/consensus/src/commit.rs:161-166 | after a boundary block every reward still queued, those it queued itself included, belongs to an epoch already ended |
| `Rewards.StaleForEver` | crates/consensus/src/commit.rs:272-279 | over every chain of rising heights such a reward is never paid and never changes unless its job is queued again |
| `Rewards.PaidOnce` | crates/consensus/src/commit.rs:344-346 | over every chain no job is paid twice without having been queued again in between |
| `Rewards.PaidInItsEpoch` | crates/consensus/src/commit.rs:161-166 | a reward is paid at the boundary that ends its epoch and at no other height |
| `Rewards.RewardFate` | crates/consensus/src/commit.rs:267-362 | over every chain a queued reward whose job is not queued again is unchanged in the queue exactly when no block has paid it |
| `Rewards.SettlementsNeverPaid` | crates/chain/src/apply.rs:422-491 | the reward a settlement records is never paid at any boundary, as it has no tokens |
| `SupplyCap.ScheduleConverges` | crates/payments/src/emission.rs:38-44 | all years of the schedule together emit at most 795 million ARK, as documented |
| `SupplyCap.BudgetsBelowCap` | crates/payments/src/emission.rs:101-103 | all epoch budgets together are at most that, below the cap |
| `SupplyCap.ChainMintsWithinSchedule` | crates/consensus/src/commit.rs:267-362 | over every chain of rising heights the epoch mints are at most the budgets of the epochs reached |
| `SupplyCap.ChainMintsBelowCap` | crates/payments/src/emission.rs:38-45 | so the cap that is never consulted is never reached by them |
| `SupplyCap.AllMintsBelowCap` | crates/payments/src/emission.rs:38-45 | and where no reward transaction lands, everything ever minted is below the cap |
| `SupplyCap.CarryOverLostExactly` | crates/payments/src/emission.rs:158-170 | the documented advance gives the budget the mint uses exactly when nothing was left |
| `SupplyCap.CarryOverLost` | crates/payments/src/emission.rs:32-34 | over every chain of rising heights the documented pool of the next boundary exceeds the budget in use by exactly all that earlier boundaries left |
| `Conservation.ConservesExactly` | crates/chain/src/state.rs:996-1007 | an applied transaction conserves if and only if it reads nothing stale: no live lock under its job, the settled escrow still locked in full, no open deposit under its proposal identifier |
| `Conservation.SecondLockLosesTheFirst` | crates/chain/src/apply.rs:375-381 | witness: locking one job twice in a block applies both and loses the first amount |
| `Conservation.SecondSettlePaysAgain` | crates/chain/src/apply.rs:429-450 | witness: settling one escrow twice in a block applies both and pays its amount twice |
| `Conservation.SecondProposalLosesTheFirst` | crates/chain/src/apply.rs:739-756 | witness: two proposals in a block apply under one identifier and the first deposit is lost |
| `Conservation.FirstOnKeyIsFresh` | crates/chain/src/apply.rs:746-756 | the first applied escrow transaction of a job, and the first proposal of a block, read nothing stale |
| `Conservation.BlockConserves` | crates/consensus/src/commit.rs:97-120 | at most one applied escrow transaction per job and one applied proposal suffice |
| `Conservation.BlockTotal` | crates/consensus/src/commit.rs:97-120 | for every transaction list: holdings plus burned equal holdings before plus minted plus the sum of the gaps |
| `Conservation.BlockConservesExactly` | crates/consensus/src/commit.rs:97-120 | so a list conserves if and only if its gaps add up to zero |
| `Conservation.AdvanceConserves` | crates/consensus/src/commit.rs:376-475 | the governance pass only moves deposits between open, returned and forfeited |
| `ChainSupply.MintConserves` | crates/consensus/src/commit.rs:267-362 | the mint changes all holdings by exactly minted less burned, within the epoch's budget |
| `ChainSupply.ChainBalances` | crates/consensus/src/commit.rs:92-250 | over every chain of decided blocks, without restriction on their content: holdings, vetoed deposits included, plus everything burned equal the genesis holdings plus everything minted plus every gap of a stale read or a slash |
| `ChainSupply.ChainConserves` | crates/consensus/src/commit.rs:92-250 | so chains conserve whose blocks land one escrow transaction per job and one proposal, and accuse each node once and not after touching its stakes |
| `Nonces.StepNonce` | crates/chain/src/apply.rs:883-918 | an applied transaction moves the spender's nonce by exactly one, having carried exactly that nonce, and no other nonce |
| `Nonces.PassNonces` | crates/chain/src/apply.rs:130-213 | over any list a nonce grows by exactly the number of applied spends, which carry consecutive nonces |
| `Chain.ChainNonces` | crates/chain/src/state.rs:844-858 | the same over every chain, although emptied accounts are deleted; no empty account is ever stored |
| `Chain.EachNonceSpentOnce` | crates/chain/src/apply.rs:383-399 | over every chain each account and nonce is spent by at most one landed transfer or escrow lock |
| `Unbondings.StepSteps` | crates/chain/src/stake_apply.rs:157-238 | each applied transaction opens one unbonding under the counter's value, pays one that is due in full (to its delegator if it names one), or touches none |
| `Unbondings.PayeeFixedExactly` | crates/chain/src/unbonding.rs:23-28 | who is paid does not depend on who completes an unbonding if and only if it names a delegator |
| `Unbondings.StrangerTakesSelfStake` | crates/chain/src/stake_apply.rs:157-238 | witness: any signer withdraws the self-stake of a node and is paid it after the period |
| `Unbondings.UnbondingRuns` | crates/chain/src/stake_apply.rs:204-238 | over every chain, slashes included: identifiers are never reused; each unbonding is paid at most once, what was pending of it, to its delegator if it names one, and at least 1,209,600 blocks after it was started; a block trims by 5%, once, only immature compute unbondings of nodes it accuses; what is pending is exactly what these events leave |
| `Receipts.MarkedAreNew` | crates/chain/src/apply.rs:257-275 | a batch marked to its end names each job once and no job marked before |
| `Receipts.JobsAnchoredOnce` | crates/chain/src/apply.rs:227-325 | over every chain each job is anchored by at most one landed batch, in one place in it; marks are neither lost nor redated |
| `Governance.EvaluateExactly` | crates/governance/src/proposals.rs:115-145 | the verdict without divisions, every threshold inclusive: half the bonded stake votes, 33% of the votes vetoes, 66% of the non-abstaining votes passes |
| `Governance.EvaluateTally` | crates/governance/src/proposals.rs:115-145 | computes the verdict; aborts when the scaled total overflows |
| `Governance.CountVotes` | crates/consensus/src/commit.rs:418-432 | each of the four fields is the clamped sum of the balances of those whose committed vote on the proposal is that choice, in whatever order |
| `Governance.TotalBondedStake` | crates/chain/src/state.rs:749-760 | the saturating sum over all stakes, in whatever order |
| `Governance.ReturnDeposit` | crates/consensus/src/commit.rs:479-495 | credits the deposit to the proposer named |
| `Governance.ProcessProposal` | crates/consensus/src/commit.rs:400-460 | one step of one committed proposal |
| `Governance.ProcessGovernanceProposals` | crates/consensus/src/commit.rs:376-475 | every committed proposal in key order, or an abort on overflow |
| `Governance.TallyCounts` | crates/governance/src/proposals.rs:102-109 | the tally counts every choice in its own field |
| `Verdicts.PassMovesExactly` | crates/consensus/src/commit.rs:376-475 | the phase of every committed proposal after the pass: voting opens exactly from the end of discussion on, and from the end of voting on the weighed votes decide, by the balances of its turn |
| `Verdicts.BoundaryMovesExactly` | crates/consensus/src/commit.rs:168-170 | and so at every epoch boundary |
| `Verdicts.UnanimousVerdict` | crates/governance/src/proposals.rs:115-145 | a due proposal with quorum passes where all vote yes, is rejected where all vote no or abstain, and is vetoed where all veto |
| `Lifecycle.StepProposals` | crates/chain/src/apply.rs:746-757 | an applied proposal is recorded in discussion under the committed counter; nothing else writes proposals |
| `Lifecycle.ResolveSteps` | crates/consensus/src/commit.rs:400-460 | a moved proposal makes one forward step, and its deposit is returned exactly on Passed or Rejected |
| `Lifecycle.NextSteps` | crates/consensus/src/commit.rs:376-475 | every block moves each proposal by at most one phase, forward, and only at an epoch boundary; new proposals appear in discussion under unused identifiers |
| `Lifecycle.ChainOnward` | crates/governance/src/proposals.rs:41-56 | over every chain phases never go back, contents never change and a resolved proposal stays as it is |
| `Lifecycle.PassCredits` | crates/consensus/src/commit.rs:434-460 | over one governance pass each balance grows by exactly the deposits returned to it, clamped |
| `Lifecycle.BoundaryCredits` | crates/consensus/src/commit.rs:152-176 | and so over a block's whole boundary work, after the mint |
| `Lifecycle.DepositReturnedOnce` | crates/consensus/src/commit.rs:435-450 | over every chain a deposit is returned (`BoundaryCredits` says what that credits) at most once |
| `Lifecycle.VotesAreFinal` | crates/chain/src/apply.rs:789-797 | over every chain a committed vote never changes, so each voter weighs in once per proposal |
| `Duplicates.VotesOfBlock` | crates/chain/src/apply.rs:789-797 | a block lands every vote under an open ballot and none under any other, and the last one is recorded |
| `Duplicates.DuplicateVotesRefusedExactly` | crates/chain/src/apply.rs:760-761 | so a second vote of a voter in a block is refused exactly when the ballot was closed to it already |
| `Duplicates.SecondVoteReplacesTheFirst` | crates/chain/src/apply.rs:789-797 | witness: both votes land and the second counts |
| `Duplicates.PoolVotesOnce` | crates/consensus/src/mempool.rs:384-384 | blocks filled from the pool hold at most one vote of a voter, as its votes share a slot |
| `Duplicates.ModelsOfBlock` | crates/chain/src/apply.rs:551-555 | nothing lands under a committed name, and under a new one the last registration that landed is recorded |
| `Duplicates.SecondRegistrationLandsExactly` | crates/chain/src/apply.rs:551-566 | a name registered earlier in the block is registered again exactly when the deposit is enough and covered |
| `Duplicates.SecondModelReplacesTheFirst` | crates/chain/src/apply.rs:551-571 | witness: two registrars pay for one name and the first manifest is lost |
| `Delegators.SharesAddUp` | crates/consensus/src/commit.rs:555-581 | the delegators' shares add up to exactly the cut, even where products saturate |
| `Delegators.SharesAreFair` | crates/consensus/src/commit.rs:555-581 | without saturation every delegator but the last gets the floor of its exact share, the last at most one unit per other delegator above its own |
| `Delegators.SharesPayable` | crates/consensus/src/commit.rs:555-581 | every share fits in 128 bits, although the products behind it may saturate |
| `Delegators.DistributeToDelegators` | crates/consensus/src/commit.rs:513-581 | finds the operated node and its stakes, credits exactly those shares, or the compute address where there is nobody to share with; reports overflow of the stake sum |
| `Payouts.DelegationsAre` | crates/consensus/src/commit.rs:530-556 | those who share are the delegated compute positions of the node, each once, in key order |
| `Payouts.DistributedReaches` | crates/consensus/src/commit.rs:513-581 | every account gains exactly its shares; the compute address all of it where nobody has a share |
| `Delegators.DistributedAddsTotal` | crates/consensus/src/commit.rs:513-581 | in every case the balances grow by exactly the cut |
| `Mempool.Pool.Insert` | crates/consensus/src/mempool.rs:187-259 | refused exactly by the checks in order, else the pool is the longest ranked prefix of (old − replaced + new) within both caps: whatever it leaves out pays less than every transaction kept, or as much and arrived later; the answer says whether the new transaction is in it; the three indexes and the byte counter agree |
| `Mempool.Pool.EvictDown` | crates/consensus/src/mempool.rs:233-257 | eviction leaves the longest ranked prefix that fits; each evicted transaction pays less than each kept one, or as much and arrived later |
| `Mempool.Pool.ReplaceExisting` | crates/consensus/src/mempool.rs:205-218 | a pooled transaction of the same sender and nonce goes exactly when the new fee is strictly higher |
| `Mempool.Pool.RemoveByHash` | crates/consensus/src/mempool.rs:340-356 | one entry leaves every index and the counter |
| `Mempool.Pool.RemoveMany` | crates/consensus/src/mempool.rs:268-272 | exactly the listed hashes leave |
| `Mempool.LongestFitUnique` | crates/consensus/src/mempool.rs:187-259 | the longest fitting prefix is unique |
| `Mempool.LongestKeepsDearest` | crates/consensus/src/mempool.rs:103-113 | of all candidates those left out pay less than every one kept, or as much and arrived later |
| `Mempool.LeavesOutForRoom` | crates/consensus/src/mempool.rs:233-257 | and it leaves something out only where the dearest of that would break a cap |
| `Mempool.ScreenedExactly` | crates/consensus/src/mempool.rs:187-218 | a transaction passes the checks exactly when it has at most 1 MiB, is of a pooled kind and not pooled, and pays more than what is pooled of its sender and nonce |
| `Mempool.CandidatesAre` | crates/consensus/src/mempool.rs:205-232 | the candidates are the new transaction, under its sender, nonce, fee and arrival number, and every pooled one but that of its sender and nonce |
| `Mempool.Pool.DrainForBlock` | crates/consensus/src/mempool.rs:283-318 | picked and left make up the old pool; fees never rise along the picked, equal fees come in order of arrival, both budgets hold, and every transaction left was too dear or too long to join those picked that pay more, or as much and arrived before it |
| `Mempool.DrainTakesDearest` | crates/consensus/src/mempool.rs:283-318 | every drain is in order of falling fees, then of arrival, and what it leaves exceeded a budget after the picked ones before it in that order |
| `Mempool.LeftBreaksBudget` | crates/consensus/src/mempool.rs:283-318 | each transaction left would break a budget even at the final totals |
| `Mempool.DrainDetermined` | crates/consensus/src/mempool.rs:283-318 | these properties leave exactly one possible drain |
| `Mempool.Pool.Readmit` | crates/consensus/src/mempool.rs:324-336 | in every case the pool becomes what the insertions make of it one after the other, refused or not; when every drained transaction has room they all come back, with new arrival numbers |
| `Mempool.InsertsDetermined` | crates/consensus/src/mempool.rs:187-259 | a list of insertions and the pool it meets determine the pool it leaves, evictions, replacements and refusals included |
| `Mempool.Pool.DrainThenReadmit` | crates/consensus/src/mempool.rs:320-336 | draining and readmitting with nothing between restores the same transactions |
| `Mempool.OrderAfterRoundTrip` | crates/consensus/src/mempool.rs:103-113 | and changes the order of two of them exactly when the earlier was picked, the later stayed and their fees are equal |
| `Merkle.NewTree` | crates/crypto/src/merkle.rs:43-69 | layers of pairwise hashes up to one digest, the last node of an odd layer doubled; refuses no leaves |
| `Merkle.TreeRoot` | crates/crypto/src/merkle.rs:72-80 | the root of the leaf layer |
| `Merkle.RootOfHalves` | crates/crypto/src/merkle.rs:43-69 | the root of a power of two of leaves is the hash of the roots of its left and right half, in this order, down to tagged leaves |
| `Merkle.RootOfThree` | crates/crypto/src/merkle.rs:51-63 | the third of three leaves is doubled |
| `Merkle.Prove` | crates/crypto/src/merkle.rs:88-118 | the sibling path of the leaf; refuses an index out of range |
| `Merkle.VerifyProof` | crates/crypto/src/merkle.rs:122-177 | accepts exactly well-sized paths that climb to the root, with each refusal's condition |
| `Merkle.ExpectedSiblings` | crates/crypto/src/merkle.rs:193-200 | the number of layers above the leaves |
| `Merkle.AcceptedLeafOccurs` | crates/crypto/src/merkle.rs:122-177 | soundness: an accepted proof is for a leaf of the list, whatever leaf count it claims |
| `Merkle.AcceptsExactly` | crates/crypto/src/merkle.rs:122-177 | with the real leaf count exactly the generated proof of that index and leaf is accepted |
| `Merkle.GeneratedProofVerifies` | crates/crypto/src/merkle.rs:88-118 | completeness, and the proof length is the ceiling of log2 of the leaf count |
| `Merkle.EqualRootsSameLengthEqualLists` | crates/crypto/src/merkle.rs:43-69 | binding for lists of equal length |
| `Merkle.SameRootExactly` | crates/crypto/src/merkle.rs:43-69 | two lists share a root exactly when their trees have the same height and the same leaf in every slot |
| `Merkle.RepeatedLastLeafSameRoot` | crates/crypto/src/merkle.rs:1-16 | every odd list of three or more leaves shares its root with itself followed by its last leaf |
| `Utf8.ScanFindsLongest` | crates/inference/src/tokenizer.rs:201-213 | the scan stops at the end of the longest well-formed prefix (section 4 of RFC 3629) |
| `Utf8.CharsAreScalars` | crates/inference/src/tokenizer.rs:201-213 | the characters of that grammar are exactly the encodings of the Unicode scalar values (section 3 of RFC 3629), surrogates and overlong forms excluded |
| `Utf8.PieceBuffer.Feed` | crates/inference/src/tokenizer.rs:197-215 | returns that prefix of everything pending and keeps exactly the rest |
| `Utf8.PieceBuffer.Flush` | crates/inference/src/tokenizer.rs:218-222 | returns well-formed text, unchanged exactly when what was pending is well formed |
| `Utf8.StreamingEqualsBatch` | crates/inference/src/tokenizer.rs:184-215 | however a stream is cut, the text returned is its longest well-formed prefix and the buffer holds exactly the rest |
| `Utf8.PendingAtMostThree` | crates/inference/src/tokenizer.rs:181-188 | the buffer holds at most three bytes of any stream that can still become well formed |
| `Utf8.StuckExactly` | crates/inference/src/tokenizer.rs:204-213 | a test on the pending bytes that holds exactly when no continuation completes a character |
| `Utf8.StuckForever` | crates/inference/src/tokenizer.rs:204-213 | from a hopeless start on nothing is ever returned again and the buffer only grows |
| `Utf8.LossyIdentityExactly` | crates/inference/src/tokenizer.rs:217-222 | replacement changes nothing exactly for well-formed input |
| `Utf8.LossyKeepsChars` | crates/inference/src/tokenizer.rs:217-222 | whole characters are kept |
| `Utf8.LossyReplaces` | crates/inference/src/tokenizer.rs:217-222 | where no character begins, the longest start of one, or else one byte, becomes U+FFFD |
| `Gguf.ParseHeaderBytes` | crates/model-manager/src/gguf.rs:95-148 | the cursor-driven parser computes the parse function, errors included |
| `Gguf.Reader.SkipValue` | crates/model-manager/src/gguf.rs:244-299 | consumes one value of any type, arrays nested to any depth; terminates because each value takes at least one byte |
| `Gguf.Reader.ReadString` | crates/model-manager/src/gguf.rs:228-242 | length, cap and UTF-8 checks of one string |
| `Gguf.WriteThenParse` | crates/model-manager/src/gguf.rs:341-355 | every document within the caps, written and followed by anything, parses back to its counts, with the last architecture string and the last file-type u32 winning |
| `Gguf.ParseExactly` | crates/model-manager/src/gguf.rs:95-148 | the parser accepts a buffer exactly when it starts with a document within the caps, and answers that document's header |
| `Gguf.HeaderExactly` | crates/model-manager/src/gguf.rs:114-148 | the header has the counts of the document, the architecture of its last string entry of that key and the number of its last 32-bit file-type entry, or none |
| `Gguf.WidthsAre` | crates/model-manager/src/gguf.rs:244-280 | the widths of all scalar types |
| `FeeMarket.StepBound` | crates/chain/src/fee_market.rs:47-82 | for gas up to twice the target one step moves the fee by at most max(1, fee/8) and never below 1 |
| `FeeMarket.StepExactly` | crates/chain/src/fee_market.rs:47-82 | the next fee for every fee, gas and positive target: under target exactly an eighth of fee times distance over target less, above it as much more but at least one |
| `BlockGas.FeeAfterBlock` | crates/consensus/src/commit.rs:173-186 | and so every accepted block leaves its height and the fee of the next block |
| `FeeMarket.EighthBoundExactly` | crates/chain/src/fee_market.rs:18-23 | for every fee, every block and every positive target the documented bound of fee/8 holds if and only if the block is at or under target, or the fee is at least 8 and either `fee * excess` is below `8 * (fee/8 + 1) * target` or fee plus its eighth saturates |
| `FeeMarket.TwiceTargetKeepsBound` | crates/chain/src/fee_market.rs:47-82 | so above target and up to twice the target it holds exactly for fees of at least 8 |
| `FeeMarket.TripleTargetBreaksBound` | crates/chain/src/fee_market.rs:47-82 | witness: at three times the target a fee of 8 becomes 10 |
| `FeeMarket.MonotoneInGas` | crates/chain/src/fee_market.rs:47-82 | more gas never lowers the next fee |
| `FeeMarket.MonotoneInFee` | crates/chain/src/fee_market.rs:47-82 | a higher parent fee never lowers the next fee |
| `FeeMarket.EmptyBlocksSettleAtSeven` | crates/chain/src/fee_market.rs:47-82 | empty blocks bring every fee of at least 7 to exactly 7 |
| `FreeTier.FreeTierTracker.Check` | crates/compute/src/free_tier.rs:136-156 | the outcome for a wallet and time, with the overflow of the retry hint |
| `FreeTier.CheckedExactly` | crates/compute/src/free_tier.rs:136-156 | a wallet is allowed exactly while it is below both limits, and told what is left; else the hour's limit is reported before the day's |
| `FreeTier.RollsOverExactly` | crates/compute/src/free_tier.rs:136-150 | the retry hint is the first moment of the next window, and overflows exactly in the last window of the clock |
| `FreeTier.FreeTierTracker.Consume` | crates/compute/src/free_tier.rs:159-171 | the same outcome, counted only when allowed |
| `FreeTier.FreeTierTracker.AbsorbTick` | crates/compute/src/free_tier.rs:173-184 | adds gossiped counts, saturating |
| `FreeTier.FreeTierTracker.Prune` | crates/compute/src/free_tier.rs:186-191 | drops old buckets |
| `FreeTier.PrunesExactly` | crates/compute/src/free_tier.rs:186-191 | exactly the buckets before the last full hour and the last full day are dropped |
| `FreeTier.GrantsWithinLimit` | crates/compute/src/free_tier.rs:159-171 | over every mix of uses, gossip and pruning with non-decreasing times a wallet is granted at most the limit in each UTC hour and day |
| `FreeTier.AllowedExactly` | crates/compute/src/free_tier.rs:136-171 | after every such run a wallet is allowed a job if and only if what it was granted and what gossip reported are below the limit, in the hour and in the day |
| `FreeTier.PruneChangesNoOutcome` | crates/compute/src/free_tier.rs:186-191 | pruning never changes a later outcome |
| `FreeTier.AbsorbOrderIrrelevant` | crates/compute/src/free_tier.rs:173-184 | counts after absorbing ticks do not depend on their order |
| `Keys.StakeBytesInjective` | crates/chain/src/state.rs:125-153 | different stake positions never share a database key |
| `Keys.UnbondBytesInjective` | crates/chain/src/state.rs:156-161 | different unbondings never share a database key |
| `Keys.BigEndianOrder` | crates/chain/src/state.rs:686-703 | big-endian identifiers sort in numeric order |
| `Keys.ScanPrefix` | crates/chain/src/state.rs:292-307 | seeking a prefix and stopping at the first key without it finds exactly the keys that start with it, in order |

## Left out

- Blocks.BuildBlock: parent hash, transaction and receipt roots, validator-set hash and the other header fields that nothing here reads are not produced.
- Blocks.CommitBlock: block storage, pruning and metrics are not modelled.
- ChainSupply.ChainConserves: the premise on how often a key is used in a block is not enforced by the code; `ChainSupply.ChainBalances` has no such premise. Both assume that the total fits in 128 bits.
- Stall.RefundRefuses: at a boundary with refunds and payments due at once the block is accepted if and only if they agree account by account (`Acceptance.BoundaryBlockDecided`), so no permanence is claimed for that coincidence.
- NoOverflow.BlockNeverOverflows: a sufficient condition on committed state and block; blocks beyond it need not abort.
- KeyOrder: addresses are abstract, so the byte order of addresses in scans is some fixed order of them.
- Slashing: of the offences only the one that commit dispatches is used in blocks; error returns of the database are not modelled.
- Transaction signatures, the consensus engine and block hashes are not part of this model.
- RocksDB, the sparse Merkle tree's internals, borsh and the hash functions are library code; the tree is its map of non-zero leaves.
- Mempool.Pool.Insert: the priority order's last tie-break, on the hash, is not modelled because arrival numbers are unique; overflow of the byte counter's machine word is out of reach of the caps.
- Gguf.Reader.SkipValue: the recursion depth is bounded only by the input, as in the code; exhausting the machine stack is not modelled.
- Gguf.ParseHeaderBytes: reading the file and its 16 MiB prefix is input/output and is left out.
- The clock, logging and metrics are left out or are parameters; llama.cpp calls, model download, networking, bindings and configuration are foreign or input/output code.
