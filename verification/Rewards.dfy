/**
 The life of a queued reward over whole chains: who is paid at an epoch boundary, that each
 entry is paid at most once, and which entries stay in the queue for ever.
 */
module Rewards {
  import opened Numeric
  import opened Types
  import opened LedgerSpec
  import opened Store
  import opened Emission
  import opened Blocks
  import BlockGas
  import Chain
  import Governance
  import KeyOrder
  import Replay
  import Slashing
  import Unbondings
  import ValidatorSet

  type Queue = map<JobId, PendingReward>

  // ----- One mint -----

  /** What the rewards of `jobs` take from the budget, one after the other. */
  function MintedSoFar(base: Columns, jobs: seq<JobId>, perToken: u128, budget: u128): (m: nat)
    requires Queued(base, jobs)
    ensures m <= budget
    decreases |jobs|
  {
    if jobs == [] then 0
    else
      var earlier := MintedSoFar(base, jobs[..|jobs| - 1], perToken, budget);
      earlier + Granted(RewardOf(base.pendingRewards[jobs[|jobs| - 1]], perToken).GetOr(0), budget, earlier)
  }

  function PaidOf(base: Columns, jobs: seq<JobId>, perToken: u128, budget: u128): set<JobId>
    requires Queued(base, jobs)
    decreases |jobs|
  {
    if jobs == [] then {}
    else
      var earlier, job := jobs[..|jobs| - 1], jobs[|jobs| - 1];
      var reward := RewardOf(base.pendingRewards[job], perToken).GetOr(0);
      PaidOf(base, earlier, perToken, budget) +
        if Granted(reward, budget, MintedSoFar(base, earlier, perToken, budget)) > 0 then {job} else {}
  }

  /** The jobs an epoch boundary at this height pays, from the committed queue alone. */
  function PaidAt(base: Columns, height: u64): set<JobId> {
    var jobs := Ending(base, height);
    if TokensOf(base, jobs) > U64_MAX || EpochBudget(height).None? then {}
    else PaidOf(base, jobs, PerToken(EpochBudget(height).value, TokensOf(base, jobs)), EpochBudget(height).value)
  }

  lemma OneMintDequeues(base: Columns, b: MintBook, job: JobId, perToken: u128, budget: u128)
    requires job in base.pendingRewards && MintOne(base, b, job, perToken, budget).Some?
    ensures var a := MintOne(base, b, job, perToken, budget).value;
      var g := Granted(RewardOf(base.pendingRewards[job], perToken).GetOr(0), budget, b.minted);
      a.minted == b.minted + g && a.pendingRewards == b.pendingRewards - if g > 0 then {job} else {}
  {
    hide RewardOf, Granted, PaidShares, SplitOf;
    assert b.pendingRewards - {} == b.pendingRewards;
  }

  lemma {:induction false} MintDequeues(base: Columns, b: MintBook, jobs: seq<JobId>, perToken: u128, budget: u128)
    requires Queued(base, jobs) && MintMany(base, b, jobs, perToken, budget).Some? && b.minted == 0
    ensures var a := MintMany(base, b, jobs, perToken, budget).value;
      && a.minted == MintedSoFar(base, jobs, perToken, budget)
      && a.pendingRewards == b.pendingRewards - PaidOf(base, jobs, perToken, budget)
    decreases |jobs|
  {
    hide MintOne, RewardOf, Granted;
    if jobs == [] {
      assert b.pendingRewards - {} == b.pendingRewards;
    } else {
      var earlier, job := jobs[..|jobs| - 1], jobs[|jobs| - 1];
      MintDequeues(base, b, earlier, perToken, budget);
      var before := MintMany(base, b, earlier, perToken, budget).value;
      OneMintDequeues(base, before, job, perToken, budget);
      var g := Granted(RewardOf(base.pendingRewards[job], perToken).GetOr(0), budget, before.minted);
      var last := if g > 0 then {job} else {};
      assert b.pendingRewards - PaidOf(base, earlier, perToken, budget) - last ==
        b.pendingRewards - (PaidOf(base, earlier, perToken, budget) + last);
    }
  }

  lemma NoJobsNoPay(base: Columns, height: u64)
    requires Ending(base, height) == []
    ensures PaidAt(base, height) == {}
  {
    hide EpochBudget;
  }

  /** A mint takes exactly the jobs it pays out of the queue; every other entry stays. */
  lemma MintDequeuesExactly(base: Columns, accounts: Accounts, pending: Queue, height: u64)
    requires Mint(base, accounts, pending, height).Some?
    ensures Mint(base, accounts, pending, height).value.pendingRewards == pending - PaidAt(base, height)
  {
    hide MintMany, TokensOf, PerToken, EpochBudget, PaidOf;
    var jobs := Ending(base, height);
    if jobs == [] {
      NoJobsNoPay(base, height);
      assert pending - {} == pending;
    } else {
      var budget := EpochBudget(height).value;
      MintDequeues(base, MintBook(accounts, pending, 0, 0), jobs, PerToken(budget, TokensOf(base, jobs)), budget);
    }
  }

  lemma {:induction false} PaidAreListed(base: Columns, jobs: seq<JobId>, perToken: u128, budget: u128)
    requires Queued(base, jobs)
    ensures forall j :: j in PaidOf(base, jobs, perToken, budget) ==> j in jobs
    decreases |jobs|
  {
    hide RewardOf, Granted, MintedSoFar;
    if jobs != [] {
      PaidAreListed(base, jobs[..|jobs| - 1], perToken, budget);
    }
  }

  lemma {:induction false} ListedPaidExactly(base: Columns, jobs: seq<JobId>, perToken: u128, budget: u128, i: nat)
    requires Queued(base, jobs) && i < |jobs| && forall k, l :: 0 <= k < l < |jobs| ==> jobs[k] != jobs[l]
    requires Queued(base, jobs[..i])
    ensures jobs[i] in PaidOf(base, jobs, perToken, budget) <==>
      Granted(RewardOf(base.pendingRewards[jobs[i]], perToken).GetOr(0), budget,
        MintedSoFar(base, jobs[..i], perToken, budget)) > 0
    decreases |jobs|
  {
    hide RewardOf, Granted, MintedSoFar;
    var n := |jobs| - 1;
    if i < n {
      assert jobs[..n][..i] == jobs[..i];
      ListedPaidExactly(base, jobs[..n], perToken, budget, i);
    } else {
      PaidAreListed(base, jobs[..n], perToken, budget);
    }
  }

  /** A queued reward of the ending epoch stays exactly when it is worth nothing or the rewards
      before it in key order have used up the budget. */
  lemma StaysQueuedExactly(base: Columns, height: u64, i: nat)
    requires i < |Ending(base, height)| && EpochBudget(height).Some?
    requires TokensOf(base, Ending(base, height)) <= U64_MAX
    ensures var jobs, budget := Ending(base, height), EpochBudget(height).value;
      var perToken := PerToken(budget, TokensOf(base, jobs));
      && Queued(base, jobs[..i])
      && (jobs[i] !in PaidAt(base, height) <==>
            || RewardOf(base.pendingRewards[jobs[i]], perToken).GetOr(0) == 0
            || MintedSoFar(base, jobs[..i], perToken, budget) == budget)
  {
    hide MintedSoFar, RewardOf, TokensOf, PerToken;
    var jobs, budget := Ending(base, height), EpochBudget(height).value;
    forall j | j in jobs[..i]
      ensures j in jobs
    {
    }
    ListedPaidExactly(base, jobs, PerToken(budget, TokensOf(base, jobs)), budget, i);
    BudgetBelowCap(height);
    hide Ending, EpochBudget, PaidOf;
  }

  lemma OnlyEndingPaid(base: Columns, height: u64)
    ensures forall j :: j in PaidAt(base, height) ==>
      j in base.pendingRewards && base.pendingRewards[j].epoch == EndingEpoch(height)
  {
    hide PerToken, EpochBudget, TokensOf, PaidOf;
    var jobs := Ending(base, height);
    if EpochBudget(height).Some? {
      var budget := EpochBudget(height).value;
      PaidAreListed(base, jobs, PerToken(budget, TokensOf(base, jobs)), budget);
    }
  }

  // ----- Queueing -----

  predicate Queues(tx: Transaction, j: JobId) {
    match tx
    case AnchorReceipts(batch) => exists i :: 0 <= i < |batch.receipts| && batch.receipts[i].job == j
    case EscrowSettle(job, _) => job == j
    case _ => false
  }

  /** `after` holds what `before` does for `j`, or an entry of epoch `e` that `tx` put there. */
  predicate QueueStep(before: Queue, after: Queue, tx: Transaction, j: JobId, e: nat) {
    || Lookup(after, j) == Lookup(before, j)
    || (Queues(tx, j) && j in after && after[j].epoch == e)
  }

  lemma {:induction false} QueueRewardsAt(pending: Queue, receipts: seq<Receipt>, epoch: u64, j: JobId)
    ensures var after := QueueRewards(pending, receipts, epoch);
      if exists i :: 0 <= i < |receipts| && receipts[i].job == j then j in after && after[j].epoch == epoch
      else Lookup(after, j) == Lookup(pending, j)
    decreases |receipts|
  {
    if receipts != [] {
      var rest := receipts[1..];
      QueueRewardsAt(pending[receipts[0].job := BootstrapReward(receipts[0], epoch)], rest, epoch, j);
      assert forall i :: 1 <= i < |receipts| ==> receipts[i] == rest[i - 1];
      assert forall i :: 0 <= i < |rest| ==> rest[i] == receipts[i + 1];
    }
  }

  lemma BatchQueues(bootstrap: bool, book: ReceiptBook, batch: ReceiptBatch, height: u64, j: JobId)
    ensures QueueStep(book.pendingRewards, Anchored(bootstrap, book, batch, height).book.pendingRewards,
      AnchorReceipts(batch), j, height / EPOCH_LENGTH_BLOCKS)
  {
    QueueRewardsAt(book.pendingRewards, batch.receipts, height / EPOCH_LENGTH_BLOCKS, j);
    hide MarkReceipts, QueueRewards, ReceiptLeaves;
  }

  lemma SettlementQueues(committed: Escrows, b: EscrowBook, job: JobId, p: Payees, height: u64, j: JobId)
    ensures QueueStep(b.pendingRewards, Settling(committed, b, job, p, height).book.pendingRewards,
      EscrowSettle(job, p), j, height / EPOCH_LENGTH_BLOCKS)
  {
    hide SplitCredited;
  }

  lemma LockQueuesNothing(committed: Escrows, b: EscrowBook, user: Address, job: JobId, amount: u128, nonce: u64,
      fee: u64, height: u64)
    ensures Locking(committed, b, user, job, amount, nonce, fee, height).book.pendingRewards == b.pendingRewards
  {
    hide Spend, AccountAt;
  }

  lemma BooksKeepQueue(live: Columns)
    ensures forall d :: OnAccounts(live, d).live.pendingRewards == live.pendingRewards
    ensures forall d :: OnStakes(live, d).live.pendingRewards == live.pendingRewards
    ensures forall d :: OnModels(live, d).live.pendingRewards == live.pendingRewards
  {
  }

  lemma RecordsKeepQueue(live: Columns)
    ensures forall d :: OnGov(live, d).live.pendingRewards == live.pendingRewards
    ensures forall d :: OnRegistry(live, d).live.pendingRewards == live.pendingRewards
  {
  }

  lemma QueueOfBooks(live: Columns)
    ensures forall d :: OnEscrows(live, d).live.pendingRewards == d.book.pendingRewards
    ensures forall d :: OnReceipts(live, d).live.pendingRewards == d.book.pendingRewards
    ensures EscrowsOf(live).pendingRewards == ReceiptsOf(live).pendingRewards == live.pendingRewards
  {
  }

  lemma OthersKeepQueue(base: Columns, live: Columns, stx: SignedTx)
    requires !stx.tx.AnchorReceipts? && !stx.tx.EscrowLock? && !stx.tx.EscrowSettle?
    ensures Apply(base, live, stx).live.pendingRewards == live.pendingRewards
  {
    BooksKeepQueue(live);
    RecordsKeepQueue(live);
    hide Transferred, ModelRegistered, Proposed, Voted, Disputed, Minted, InBootstrap, StakeOpApplied;
    hide TeeRegistered, GatewayRegistered, GatewayRemoved, OnAccounts, OnStakes, OnModels, OnGov, OnRegistry;
  }

  lemma SameQueue(q: Queue, tx: Transaction, j: JobId, e: nat)
    ensures QueueStep(q, q, tx, j, e)
  {
  }

  /** A transaction queues nothing but the jobs it names, under the epoch of the committed height. */
  lemma StepQueue(base: Columns, live: Columns, stx: SignedTx, j: JobId)
    ensures QueueStep(live.pendingRewards, Apply(base, live, stx).live.pendingRewards, stx.tx, j,
      live.height / EPOCH_LENGTH_BLOCKS)
  {
    hide Locking, Settling, Anchored, OnEscrows, OnReceipts, EscrowsOf, ReceiptsOf, InBootstrap, QueueStep;
    QueueOfBooks(live);
    var h := live.height;
    match stx.tx
    case EscrowLock(user, job, amount, nonce, fee) =>
      LockQueuesNothing(base.escrows, EscrowsOf(live), user, job, amount, nonce, fee, h);
      SameQueue(live.pendingRewards, stx.tx, j, h / EPOCH_LENGTH_BLOCKS);
    case EscrowSettle(job, p) => SettlementQueues(base.escrows, EscrowsOf(live), job, p, h, j);
    case AnchorReceipts(batch) => BatchQueues(InBootstrap(h, |base.validators|), ReceiptsOf(live), batch, h, j);
    case _ =>
      OthersKeepQueue(base, live, stx);
      SameQueue(live.pendingRewards, stx.tx, j, h / EPOCH_LENGTH_BLOCKS);
  }

  // ----- Blocks -----

  ghost predicate QueuesIn(txs: seq<SignedTx>, j: JobId) {
    exists i :: 0 <= i < |txs| && Queues(txs[i].tx, j)
  }

  lemma QueuesInMore(txs: seq<SignedTx>, stx: SignedTx, j: JobId)
    ensures QueuesIn(txs + [stx], j) <==> QueuesIn(txs, j) || Queues(stx.tx, j)
  {
    hide Queues;
    var more := txs + [stx];
    assert forall i :: 0 <= i < |txs| ==> more[i] == txs[i];
    if Queues(stx.tx, j) {
      assert more[|txs|] == stx;
    }
  }

  /** What a block's transactions leave of the queue entry of a job. */
  ghost predicate QueuedAs(base: Columns, pass: Pass, j: JobId) {
    && pass.Pass? && pass.live.height == base.height
    && (|| Lookup(pass.live.pendingRewards, j) == Lookup(base.pendingRewards, j)
        || (&& QueuesIn(pass.kept, j) && j in pass.live.pendingRewards
            && pass.live.pendingRewards[j].epoch == base.height / EPOCH_LENGTH_BLOCKS))
  }

  lemma QueuedAfter(base: Columns, pass: Pass, stx: SignedTx, j: JobId)
    requires QueuedAs(base, pass, j) && PassAfter(pass, base, stx).Pass?
    ensures QueuedAs(base, PassAfter(pass, base, stx), j)
  {
    hide Apply, Queues, QueuesIn;
    Unbondings.StepHeight(base, pass.live, stx);
    if Apply(base, pass.live, stx).outcome.Applied? {
      StepQueue(base, pass.live, stx, j);
      QueuesInMore(pass.kept, stx, j);
    } else {
      Replay.RejectedLeavesLedgerExactly(base, pass.live, stx);
    }
  }

  lemma {:induction false} PassQueue(base: Columns, txs: seq<SignedTx>, j: JobId)
    requires RunAll(base, txs).Pass?
    ensures QueuedAs(base, RunAll(base, txs), j)
  {
    if txs != [] {
      hide PassAfter, QueuedAs;
      var earlier := txs[..|txs| - 1];
      BlockGas.PassOfPrefix(base, txs);
      PassQueue(base, earlier, j);
      QueuedAfter(base, RunAll(base, earlier), txs[|txs| - 1], j);
    }
  }

  lemma {:induction false} SlashesKeepQueue(base: Columns, live: Columns, txs: seq<SignedTx>)
    requires SlashAll(base, live, txs).Some?
    ensures SlashAll(base, live, txs).value.pendingRewards == live.pendingRewards
  {
    hide Slashing.Slashed;
    if txs != [] {
      SlashesKeepQueue(base, live, txs[..|txs| - 1]);
    }
  }

  function PaidBy(base: Columns, header: Header): set<JobId> {
    if IsEpochBoundary(header.height) then PaidAt(base, header.height) else {}
  }

  lemma QueueAfterMint(live: Columns, validators: map<NodeId, ValidatorInfo>, b: MintBook)
    ensures WithMint(WithRotation(live, validators), b).pendingRewards == b.pendingRewards
  {
  }

  lemma GovernanceKeepsQueue(c: Columns, b: GovBook)
    ensures WithGov(c, b).pendingRewards == c.pendingRewards
  {
  }

  lemma RotatedDequeues(base: Columns, live: Columns, header: Header)
    requires Rotated(base, live, header).Some?
    ensures Rotated(base, live, header).value.pendingRewards == live.pendingRewards - PaidBy(base, header)
  {
    hide Governance.Advance, Mint, PaidAt, ValidatorSet.RotatedValidators, WithGov, GovOf, WithMint, WithRotation;
    if IsEpochBoundary(header.height) {
      var validators := ValidatorSet.RotatedValidators(base, live.validators, header.height);
      MintDequeuesExactly(base, live.accounts, live.pendingRewards, header.height);
      QueueAfterMint(live, validators, Mint(base, live.accounts, live.pendingRewards, header.height).value);
      var c := AfterMint(base, live, header.height).value;
      GovernanceKeepsQueue(c,
        Governance.Advance(base, GovOf(c), KeyOrder.IdsInOrder(base.proposals.Keys), header.timestamp).value);
    } else {
      assert live.pendingRewards - {} == live.pendingRewards;
    }
  }

  lemma SealKeepsQueue(c: Columns, header: Header, gas: u64)
    ensures Sealed(c, header, gas).pendingRewards == c.pendingRewards && Sealed(c, header, gas).height == header.height
  {
  }

  /** An accepted block leaves the queue its transactions made, without the jobs it pays, and these
      it pays by what was committed, whatever its own transactions put in their place. */
  lemma AcceptedQueue(base: Columns, block: Block)
    requires Accepts(base, block)
    ensures RunAll(base, block.txs).Pass?
    ensures Next(base, block).pendingRewards ==
      RunAll(base, block.txs).live.pendingRewards - PaidBy(base, block.header)
    ensures Next(base, block).height == block.header.height
  {
    hide RunAll, SlashAll, Rotated, Sealed, PaidBy;
    var pass := RunAll(base, block.txs);
    SlashesKeepQueue(base, pass.live, block.txs);
    var slashed := SlashAll(base, pass.live, block.txs).value;
    RotatedDequeues(base, slashed, block.header);
    SealKeepsQueue(Rotated(base, slashed, block.header).value, block.header, pass.gas);
  }

  // ----- Epochs -----

  function EpochOf(height: u64): nat {
    height / EPOCH_LENGTH_BLOCKS
  }

  /** A later boundary ends no epoch before the current one. */
  lemma BoundaryEndsCurrent(committed: u64, height: u64)
    requires committed < height && IsEpochBoundary(height)
    ensures EndingEpoch(height) >= EpochOf(committed)
    ensures EpochOf(height) == EndingEpoch(height) + 1
  {
  }

  /** An entry of an epoch that is over. */
  predicate Stale(c: Columns, j: JobId) {
    j in c.pendingRewards && c.pendingRewards[j].epoch < EpochOf(c.height)
  }

  lemma StaleUnpaid(base: Columns, header: Header, j: JobId)
    requires Stale(base, j) && base.height < header.height
    ensures j !in PaidBy(base, header)
  {
    hide PaidAt;
    if IsEpochBoundary(header.height) {
      BoundaryEndsCurrent(base.height, header.height);
      OnlyEndingPaid(base, header.height);
    }
  }

  /** Entries are of no later epoch than the committed one. */
  predicate EpochsPast(c: Columns) {
    forall j :: j in c.pendingRewards ==> c.pendingRewards[j].epoch <= EpochOf(c.height)
  }

  lemma LandingIs(base: Columns, block: Block)
    requires Accepts(base, block)
    ensures Landing(base, block) == RunAll(base, block.txs).kept
  {
    hide RunAll, Accepts;
  }

  lemma NextQueue(base: Columns, block: Block, j: JobId)
    requires Accepts(base, block)
    ensures var next := Next(base, block);
      if j in PaidBy(base, block.header) then j !in next.pendingRewards
      else
        || Lookup(next.pendingRewards, j) == Lookup(base.pendingRewards, j)
        || (&& QueuesIn(Landing(base, block), j) && j in next.pendingRewards
            && next.pendingRewards[j].epoch == EpochOf(base.height))
  {
    hide Accepts, Next, RunAll, PaidBy, QueuesIn;
    AcceptedQueue(base, block);
    PassQueue(base, block.txs, j);
    LandingIs(base, block);
  }

  /** Accepted blocks have rising heights. */
  predicate Rises(base: Columns, block: Block) {
    base.height < block.header.height
  }

  /** After an epoch boundary everything left in the queue is stale: what was cut to zero, what was
      worth nothing, and what the boundary block itself queued. */
  lemma BoundaryLeavesStale(base: Columns, block: Block)
    requires Accepts(base, block) && Rises(base, block) && IsEpochBoundary(block.header.height) && EpochsPast(base)
    ensures forall j :: j in Next(base, block).pendingRewards ==> Stale(Next(base, block), j)
  {
    hide Accepts, Next, PaidBy, QueuesIn;
    BoundaryEndsCurrent(base.height, block.header.height);
    AcceptedQueue(base, block);
    forall j | j in Next(base, block).pendingRewards
      ensures Next(base, block).pendingRewards[j].epoch <= EpochOf(base.height)
    {
      NextQueue(base, block, j);
    }
  }

  lemma NextEpochsPast(base: Columns, block: Block)
    requires Rises(base, block) && EpochsPast(base)
    ensures EpochsPast(Next(base, block))
  {
    if Accepts(base, block) {
      hide Accepts, Next, PaidBy, QueuesIn;
      AcceptedQueue(base, block);
      forall j | j in Next(base, block).pendingRewards
        ensures Next(base, block).pendingRewards[j].epoch <= EpochOf(base.height)
      {
        NextQueue(base, block, j);
      }
    }
  }

  // ----- Chains -----

  ghost predicate Rising(genesis: Columns, blocks: seq<Block>) {
    blocks == [] ||
      var earlier, block := blocks[..|blocks| - 1], blocks[|blocks| - 1];
      Rising(genesis, earlier)
        && (Accepts(Chain.After(genesis, earlier), block) ==> Rises(Chain.After(genesis, earlier), block))
  }

  lemma StaleStep(base: Columns, block: Block, j: JobId)
    requires Stale(base, j) && (Accepts(base, block) ==> Rises(base, block)) && !QueuesIn(Landing(base, block), j)
    ensures var next := Next(base, block);
      Stale(next, j) && next.pendingRewards[j] == base.pendingRewards[j]
  {
    if Accepts(base, block) {
      hide Accepts, Next, PaidBy, QueuesIn, Landing;
      AcceptedQueue(base, block);
      StaleUnpaid(base, block.header, j);
      NextQueue(base, block, j);
    }
  }

  lemma QueuesInParts(earlier: seq<SignedTx>, later: seq<SignedTx>, j: JobId)
    ensures QueuesIn(earlier + later, j) <==> QueuesIn(earlier, j) || QueuesIn(later, j)
  {
    hide Queues;
    var all := earlier + later;
    assert forall i :: 0 <= i < |earlier| ==> all[i] == earlier[i];
    assert forall i :: 0 <= i < |later| ==> all[|earlier| + i] == later[i];
    assert forall i :: |earlier| <= i < |all| ==> all[i] == later[i - |earlier|];
  }

  /** Over every chain of rising heights a stale entry is never paid: unless its job is queued again
      it is in the queue for ever, as it was. */
  lemma {:induction false} StaleForEver(genesis: Columns, blocks: seq<Block>, j: JobId)
    requires Stale(genesis, j) && Rising(genesis, blocks) && !QueuesIn(Chain.Landed(genesis, blocks), j)
    ensures var now := Chain.After(genesis, blocks);
      Stale(now, j) && now.pendingRewards[j] == genesis.pendingRewards[j]
  {
    if blocks != [] {
      hide Accepts, Next, Landing, Stale, QueuesIn, Rises;
      var earlier, block := blocks[..|blocks| - 1], blocks[|blocks| - 1];
      var base := Chain.After(genesis, earlier);
      QueuesInParts(Chain.Landed(genesis, earlier), Landing(base, block), j);
      StaleForEver(genesis, earlier, j);
      StaleStep(base, block, j);
    }
  }

  /** Block `n` of the chain pays the committed entry of the job. */
  ghost predicate PaysAt(genesis: Columns, blocks: seq<Block>, n: nat, j: JobId)
    requires n < |blocks|
  {
    var base := Chain.After(genesis, blocks[..n]);
    Accepts(base, blocks[n]) && j in PaidBy(base, blocks[n].header)
  }

  ghost predicate QueuesAt(genesis: Columns, blocks: seq<Block>, n: nat, j: JobId)
    requires n < |blocks|
  {
    QueuesIn(Landing(Chain.After(genesis, blocks[..n]), blocks[n]), j)
  }

  lemma ChainStep(genesis: Columns, blocks: seq<Block>, n: nat)
    requires n < |blocks|
    ensures Chain.After(genesis, blocks[..n + 1]) == Next(Chain.After(genesis, blocks[..n]), blocks[n])
  {
    hide Next;
    assert blocks[..n + 1][..n] == blocks[..n];
  }

  lemma AbsentStep(base: Columns, block: Block, j: JobId)
    requires j !in base.pendingRewards && !QueuesIn(Landing(base, block), j)
    ensures j !in Next(base, block).pendingRewards
  {
    if Accepts(base, block) {
      hide Accepts, Next, PaidBy, QueuesIn, Landing;
      NextQueue(base, block, j);
    }
  }

  lemma {:induction false} AbsentStays(genesis: Columns, blocks: seq<Block>, m: nat, n: nat, j: JobId)
    requires m <= n <= |blocks| && j !in Chain.After(genesis, blocks[..m]).pendingRewards
    requires forall k :: m <= k < n ==> !QueuesAt(genesis, blocks, k, j)
    ensures j !in Chain.After(genesis, blocks[..n]).pendingRewards
    decreases n - m
  {
    if m < n {
      hide Next, Landing, QueuesIn, Chain.After;
      assert !QueuesAt(genesis, blocks, m, j);
      ChainStep(genesis, blocks, m);
      AbsentStep(Chain.After(genesis, blocks[..m]), blocks[m], j);
      AbsentStays(genesis, blocks, m + 1, n, j);
    }
  }

  lemma PaidAreQueued(base: Columns, header: Header)
    ensures forall j :: j in PaidBy(base, header) ==> j in base.pendingRewards
  {
    hide PaidAt;
    OnlyEndingPaid(base, header.height);
  }

  /** Over every chain an entry is paid at most once: between two payments for a job it is queued anew. */
  lemma PaidOnce(genesis: Columns, blocks: seq<Block>, m: nat, n: nat, j: JobId)
    requires m < n < |blocks| && PaysAt(genesis, blocks, m, j) && PaysAt(genesis, blocks, n, j)
    ensures exists k :: m < k < n && QueuesAt(genesis, blocks, k, j)
  {
    hide Accepts, Next, Landing, QueuesIn, Chain.After, PaidBy;
    var base := Chain.After(genesis, blocks[..m]);
    ChainStep(genesis, blocks, m);
    NextQueue(base, blocks[m], j);
    PaidAreQueued(Chain.After(genesis, blocks[..n]), blocks[n].header);
    if forall k :: m < k < n ==> !QueuesAt(genesis, blocks, k, j) {
      AbsentStays(genesis, blocks, m + 1, n, j);
    }
  }

  lemma PaidInItsEpoch(base: Columns, header: Header, j: JobId)
    requires j in PaidBy(base, header)
    ensures j in base.pendingRewards && header.height == (base.pendingRewards[j].epoch + 1) * EPOCH_LENGTH_BLOCKS
  {
    hide PaidAt;
    OnlyEndingPaid(base, header.height);
  }

  ghost predicate PaidWithin(genesis: Columns, blocks: seq<Block>, j: JobId) {
    exists n :: 0 <= n < |blocks| && PaysAt(genesis, blocks, n, j)
  }

  lemma PaidWithinStep(genesis: Columns, blocks: seq<Block>, j: JobId)
    requires blocks != []
    ensures var n := |blocks| - 1;
      PaidWithin(genesis, blocks, j) <==> PaidWithin(genesis, blocks[..n], j) || PaysAt(genesis, blocks, n, j)
  {
    hide Accepts, PaidBy, Chain.After;
    var n := |blocks| - 1;
    forall k | 0 <= k < n
      ensures PaysAt(genesis, blocks, k, j) <==> PaysAt(genesis, blocks[..n], k, j)
    {
      assert blocks[..n][..k] == blocks[..k] && blocks[..n][k] == blocks[k];
    }
  }

  /** What became of a committed entry whose job is not queued again: it is still there, as it was,
      exactly when no block so far has paid it, and only the boundary of its own epoch pays it. */
  ghost predicate Fate(genesis: Columns, blocks: seq<Block>, j: JobId)
    requires j in genesis.pendingRewards
  {
    var now := Chain.After(genesis, blocks);
    && (j in now.pendingRewards <==> !PaidWithin(genesis, blocks, j))
    && (j in now.pendingRewards ==> now.pendingRewards[j] == genesis.pendingRewards[j])
  }

  lemma RefusedChangesNothing(base: Columns, block: Block)
    requires !Accepts(base, block)
    ensures Next(base, block) == base
  {
  }

  lemma FateStep(genesis: Columns, blocks: seq<Block>, j: JobId)
    requires blocks != [] && j in genesis.pendingRewards && Fate(genesis, blocks[..|blocks| - 1], j)
    requires var n := |blocks| - 1; !QueuesIn(Landing(Chain.After(genesis, blocks[..n]), blocks[n]), j)
    ensures Fate(genesis, blocks, j)
  {
    hide Accepts, Next, PaidBy, QueuesIn, Landing, PaidWithin;
    var n := |blocks| - 1;
    var base := Chain.After(genesis, blocks[..n]);
    PaidWithinStep(genesis, blocks, j);
    if Accepts(base, blocks[n]) {
      NextQueue(base, blocks[n], j);
      PaidAreQueued(base, blocks[n].header);
    } else {
      RefusedChangesNothing(base, blocks[n]);
    }
  }

  lemma {:induction false} RewardFate(genesis: Columns, blocks: seq<Block>, j: JobId)
    requires j in genesis.pendingRewards && !QueuesIn(Chain.Landed(genesis, blocks), j)
    ensures Fate(genesis, blocks, j)
  {
    hide Accepts, Next, Landing, QueuesIn, PaysAt;
    if blocks != [] {
      var earlier, block := blocks[..|blocks| - 1], blocks[|blocks| - 1];
      QueuesInParts(Chain.Landed(genesis, earlier), Landing(Chain.After(genesis, earlier), block), j);
      RewardFate(genesis, earlier, j);
      hide Fate;
      FateStep(genesis, blocks, j);
    }
  }

  // ----- Entries that are never paid -----

  lemma NoTokensNoReward(p: PendingReward, perToken: u128)
    requires p.outputTokens == 0
    ensures RewardOf(p, perToken) == Some(0)
  {
    NoRateNoReward(p);
    assert BaseReward(0, perToken) == 0 == BaseReward(p.outputTokens, 0);
  }

  lemma {:induction false} PaidHaveTokens(base: Columns, jobs: seq<JobId>, perToken: u128, budget: u128)
    requires Queued(base, jobs)
    ensures forall j :: j in PaidOf(base, jobs, perToken, budget) ==>
      j in base.pendingRewards && base.pendingRewards[j].outputTokens > 0
    decreases |jobs|
  {
    hide RewardOf, MintedSoFar;
    if jobs != [] {
      var job := jobs[|jobs| - 1];
      PaidHaveTokens(base, jobs[..|jobs| - 1], perToken, budget);
      if base.pendingRewards[job].outputTokens == 0 {
        NoTokensNoReward(base.pendingRewards[job], perToken);
      }
    }
  }

  /** What a settlement queues counts no tokens and is never paid by any boundary. */
  lemma SettlementsNeverPaid(base: Columns, header: Header, j: JobId, amount: u128, p: Payees, height: u64)
    requires j in base.pendingRewards && base.pendingRewards[j] == SettledReward(amount, p, height)
    ensures j !in PaidBy(base, header)
  {
    hide PerToken, EpochBudget, TokensOf, PaidOf, Ending;
    if IsEpochBoundary(header.height) && EpochBudget(header.height).Some? {
      var jobs, budget := Ending(base, header.height), EpochBudget(header.height).value;
      PaidHaveTokens(base, jobs, PerToken(budget, TokensOf(base, jobs)), budget);
    }
  }
}
