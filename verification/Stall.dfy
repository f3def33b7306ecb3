/**
 Stalls: once refunds, rewards or deposits are due on the committed state, the blocks a pool
 can fill are refused, and as a refused block changes nothing, so are all that follow.
 */
module Stall {
  import opened Numeric
  import opened MapSums
  import opened Types
  import opened LedgerSpec
  import opened Store
  import opened Governance
  import opened Blocks
  import opened Supply
  import opened Conservation
  import opened ChainSupply
  import opened Acceptance
  import Chain
  import Emission
  import Lifecycle
  import Mempool
  import Nonces
  import NoOverflow
  import Replay
  import Rewards
  import Unbondings

  // ----- What a pool-filled block does to the ledger -----

  ghost predicate FromPool(txs: seq<SignedTx>) {
    forall stx :: stx in txs ==> Mempool.LaneOf(stx.tx).Lane?
  }

  lemma {:induction false} PoolCreatesNothing(base: Columns, txs: seq<SignedTx>)
    requires FromPool(txs)
    ensures NoOverflow.RunCreates(base, txs) == 0
  {
    if txs != [] {
      assert txs[|txs| - 1] in txs;
      PoolCreatesNothing(base, txs[..|txs| - 1]);
    }
  }

  /** Transactions the pool takes add nothing to what the ledger holds. */
  lemma PoolNeverAdds(base: Columns, txs: seq<SignedTx>)
    requires FromPool(txs) && RunAll(base, txs).Pass?
    requires IdsBelow(base.unbondings, base.nextUnbondId) && Total(base) <= U128_MAX
    ensures Total(RunAll(base, txs).live) <= Total(base)
  {
    hide RunAll, Total, IdsBelow, MintedIn, ExcessIn, GapsIn, NoOverflow.RunCreates, FromPool;
    PoolCreatesNothing(base, txs);
    NoOverflow.RunCreatesAtMost(base, txs);
    BlockTotal(base, txs);
  }

  ghost predicate KeepsEscrow(base: Columns, live: Columns, job: JobId)
    requires job in base.escrows
  {
    job in live.escrows && live.escrows[job] == base.escrows[job]
  }

  lemma LockOnCommittedDropped(base: Columns, live: Columns, stx: SignedTx)
    requires stx.tx.EscrowLock? && stx.tx.job in base.escrows
    ensures Apply(base, live, stx).outcome.Dropped?
  {
    hide Spend, AccountAt, WithEscrows;
  }

  lemma StepKeepsEscrow(base: Columns, live: Columns, stx: SignedTx, job: JobId)
    requires job in base.escrows && KeepsEscrow(base, live, job) && Mempool.LaneOf(stx.tx).Lane?
    ensures KeepsEscrow(base, Apply(base, live, stx).live, job)
  {
    hide Apply;
    if EscrowJob(stx.tx) == Some(job) {
      LockOnCommittedDropped(base, live, stx);
      Replay.RejectedLeavesLedgerExactly(base, live, stx);
    } else {
      StepEscrows(base, live, stx);
    }
  }

  lemma {:induction false} PoolKeepsEscrow(base: Columns, txs: seq<SignedTx>, job: JobId)
    requires FromPool(txs) && RunAll(base, txs).Pass? && job in base.escrows
    ensures KeepsEscrow(base, RunAll(base, txs).live, job)
  {
    if txs != [] {
      hide Apply, Mempool.LaneOf, KeepsEscrow;
      assert txs[|txs| - 1] in txs;
      PoolKeepsEscrow(base, txs[..|txs| - 1], job);
      StepKeepsEscrow(base, RunAll(base, txs[..|txs| - 1]).live, txs[|txs| - 1], job);
    } else {
      hide Apply, Mempool.LaneOf;
    }
  }

  lemma BalanceBesideEscrow(c: Columns, job: JobId, a: Address)
    requires job in c.escrows && LockedIn(c.escrows[job]) > 0 && Total(c) <= U128_MAX
    ensures AccountAt(c.accounts, a).balance < U128_MAX
  {
    SumAtLeast(c.escrows, LockedIn, job);
    SumAtLeast(c.accounts, Balance, a);
  }

  /** A block some proposer filled from its pool on this state. */
  ghost predicate PoolBuilt(base: Columns, block: Block) {
    exists txs: seq<SignedTx> :: FromPool(txs) && Built(base, txs, block)
  }

  // ----- Away from boundaries, and at idle ones -----

  /** An escrow of some amount is due for its refund at this height. */
  predicate RefundDue(base: Columns, job: JobId, height: u64) {
    job in base.escrows && IsExpired(base.escrows[job], height) && base.escrows[job].amount > 0
  }

  lemma RefundMoves(base: Columns, txs: seq<SignedTx>, height: u64, job: JobId)
    requires FromPool(txs) && RunAll(base, txs).Pass? && RefundDue(base, job, height)
    requires IdsBelow(base.unbondings, base.nextUnbondId) && Total(base) <= U128_MAX
    ensures !NothingMoves(RunAll(base, txs).live.accounts, Expired(base.escrows, height))
  {
    hide RunAll, FromPool, Total, IdsBelow, AccountAt;
    PoolNeverAdds(base, txs);
    PoolKeepsEscrow(base, txs, job);
    BalanceBesideEscrow(RunAll(base, txs).live, job, base.escrows[job].user);
    assert job in Expired(base.escrows, height);
  }

  /** The boundary work has nothing to do, whatever a block's transactions are. */
  predicate IdleBoundary(base: Columns, header: Header) {
    && Emission.NothingEarned(base, header.height)
    && forall id :: id in base.proposals && base.proposals[id].phase == Voting ==>
         header.timestamp < base.proposals[id].proposal.votingEnds
  }

  lemma IdleKeepsDeposits(base: Columns, accounts: Accounts, header: Header)
    requires IdleBoundary(base, header)
    ensures DepositsKept(base, accounts, header.timestamp)
  {
    hide Evaluate, TallyOf, TotalBonded, Emission.NothingEarned;
  }

  /** What the theorems below ask of a state: no reused identifiers, and holdings within 128 bits. */
  ghost predicate Bounded(base: Columns, height: u64) {
    && Ready(base) && Unbondings.SoundPending(base.unbondings, base.nextUnbondId)
    && Holdings(base) + Emission.BudgetOr0(height) <= U128_MAX
  }

  lemma ReplayBounded(base: Columns, txs: seq<SignedTx>, block: Block)
    requires FromPool(txs) && Built(base, txs, block) && Bounded(base, block.header.height)
    ensures RunAll(base, txs).Pass?
    ensures var live, again := RunAll(base, txs).live, RunAll(base, block.txs);
      && again.Pass? && GovOf(again.live) == GovOf(live) && again.live.accounts == live.accounts
      && Lifecycle.Extended(base, again.live)
      && GovHeld(GovOf(live)) + Emission.BudgetOr0(block.header.height) <= U128_MAX
      && Total(base) <= U128_MAX
  {
    hide RunAll, Total, IdsBelow, FromPool, Emission.BudgetOr0, GovHeld, GovOf, Lifecycle.Extended, Lifecycle.FreshIds;
    hide Unbondings.SoundPending, SlashAll, ProposedRoot, NoEmptyAccounts, Forfeits;
    BuiltReplay(base, txs, block);
    PoolNeverAdds(base, txs);
    Lifecycle.PassProposals(base, txs);
    Lifecycle.PassProposals(base, block.txs);
    ExtendedForfeits(base, RunAll(base, txs).live);
    HoldingsOfGov(RunAll(base, txs).live, GovOf(RunAll(base, txs).live));
  }

  /** A due refund refuses the block, at idle boundaries as well. */
  lemma RefundRefuses(base: Columns, block: Block, job: JobId)
    requires PoolBuilt(base, block) && Bounded(base, block.header.height) && RefundDue(base, job, block.header.height)
    requires IsEpochBoundary(block.header.height) ==> IdleBoundary(base, block.header)
    ensures !Accepts(base, block)
  {
    hide RunAll, Total, IdsBelow, Rotated, NothingMoves, Expired, Emission.BudgetOr0, GovHeld, GovOf, CreditedWith;
    hide Emission.NothingEarned, DepositsKept, RefundDue, FromPool, NoEmptyAccounts, Lifecycle.Extended;
    var txs :| FromPool(txs) && Built(base, txs, block);
    ReplayBounded(base, txs, block);
    RefundMoves(base, txs, block.header.height, job);
    if IsEpochBoundary(block.header.height) {
      var live := RunAll(base, txs).live;
      BuiltReplay(base, txs, block);
      BuiltAcceptedExactly(base, txs, block);
      IdleKeepsDeposits(base, live.accounts, block.header);
      BoundaryIdleExactly(base, RunAll(base, block.txs).live, block.header);
      CreditsMove(live.accounts, block.header.stateRoot.leaves, Expired(base.escrows, block.header.height));
    } else {
      BuiltBlockCommitsExactly(base, txs, block);
    }
  }

  // ----- At boundaries -----

  lemma {:induction false} NoVotesNoTally(votes: Votes, id: u64, accounts: Accounts)
    requires forall k :: k in votes ==> k.proposal != id
    ensures TallyOf(votes, id, accounts) == Tally(0, 0, 0, 0)
  {
    assert forall c :: Ballots(votes, votes.Keys, id, c, accounts) == map[];
  }

  /** A proposal nobody voted on, with a deposit. */
  predicate Unvoted(base: Columns, id: u64) {
    && id in base.proposals && base.proposals[id].phase == Voting && base.proposals[id].proposal.deposit > 0
    && forall k :: k in base.votes ==> k.proposal != id
  }

  /** Its deposit falls due at the first boundary after its vote, whatever anybody holds. */
  lemma UnvotedIsReturned(base: Columns, accounts: Accounts, now: u64, id: u64)
    requires Unvoted(base, id) && base.proposals[id].proposal.votingEnds <= now
    ensures !DepositsKept(base, accounts, now)
  {
    NoVotesNoTally(base.votes, id, accounts);
    hide TallyOf;
    assert !DepositKept(base, accounts, now, id);
  }

  /** A boundary at which a reward of the epoch is worth something, or the deposit of an unvoted
      proposal falls due, and no refund does. */
  ghost predicate BoundaryDue(base: Columns, header: Header) {
    && IsEpochBoundary(header.height) && (forall job :: !RefundDue(base, job, header.height))
    && (!Emission.NothingEarned(base, header.height)
        || exists id :: Unvoted(base, id) && base.proposals[id].proposal.votingEnds <= header.timestamp)
  }

  lemma NoRefundMovesNothing(base: Columns, accounts: Accounts, height: u64)
    requires forall job :: !RefundDue(base, job, height)
    ensures NothingMoves(accounts, Expired(base.escrows, height))
  {
    forall j | j in Expired(base.escrows, height)
      ensures base.escrows[j].amount == 0
    {
      assert !RefundDue(base, j, height);
    }
  }

  lemma BoundaryRefuses(base: Columns, block: Block)
    requires PoolBuilt(base, block) && Bounded(base, block.header.height) && BoundaryDue(base, block.header)
    ensures !Accepts(base, block)
  {
    hide RunAll, Total, IdsBelow, Rotated, Emission.BudgetOr0, GovHeld, GovOf, FromPool, Built;
    hide Emission.NothingEarned, DepositsKept, Lifecycle.Extended, Lifecycle.FreshIds;
    var txs :| FromPool(txs) && Built(base, txs, block);
    ReplayBounded(base, txs, block);
    var live := RunAll(base, txs).live;
    NoRefundMovesNothing(base, live.accounts, block.header.height);
    hide NothingMoves, Expired, RefundDue;
    BoundaryBlockCommitsExactly(base, txs, block);
    if id :| Unvoted(base, id) && base.proposals[id].proposal.votingEnds <= block.header.timestamp {
      UnvotedIsReturned(base, live.accounts, block.header.timestamp, id);
    }
  }

  // ----- For ever -----

  /** A block that a committed due refund, reward or deposit refuses. */
  ghost predicate Doomed(base: Columns, block: Block) {
    && PoolBuilt(base, block) && Bounded(base, block.header.height)
    && (|| BoundaryDue(base, block.header)
        || (&& (IsEpochBoundary(block.header.height) ==> IdleBoundary(base, block.header))
            && exists job :: RefundDue(base, job, block.header.height)))
  }

  lemma DoomedRefused(base: Columns, block: Block)
    requires Doomed(base, block)
    ensures !Accepts(base, block) && Next(base, block) == base
  {
    hide PoolBuilt, Bounded, IdleBoundary, RefundDue, Accepts;
    if BoundaryDue(base, block.header) {
      hide BoundaryDue;
      BoundaryRefuses(base, block);
    } else {
      var job :| RefundDue(base, job, block.header.height);
      RefundRefuses(base, block, job);
    }
    Rewards.RefusedChangesNothing(base, block);
  }

  lemma NothingLands(base: Columns, block: Block)
    requires !Accepts(base, block)
    ensures Landing(base, block) == []
  {
  }

  /** However many blocks are proposed: while each is filled from a pool on this state and one of these
      is due on it, none is accepted and the state stays what it is. */
  lemma {:induction false} StalledForEver(genesis: Columns, blocks: seq<Block>)
    requires forall block :: block in blocks ==> Doomed(genesis, block)
    ensures Chain.After(genesis, blocks) == genesis && Chain.Landed(genesis, blocks) == []
  {
    if blocks != [] {
      hide Doomed, Next, Accepts;
      var earlier, block := blocks[..|blocks| - 1], blocks[|blocks| - 1];
      assert block in blocks;
      StalledForEver(genesis, earlier);
      DoomedRefused(genesis, block);
      NothingLands(genesis, block);
    }
  }

  lemma RefundStaysDue(base: Columns, job: JobId, height: u64, later: u64)
    requires RefundDue(base, job, height) && height <= later
    ensures RefundDue(base, job, later)
  {
  }

  /** A block proposed on the committed state from a pool, at `height` or later. */
  ghost predicate ProposedOn(base: Columns, block: Block, height: u64) {
    && height <= block.header.height && PoolBuilt(base, block) && Bounded(base, block.header.height)
    && (IsEpochBoundary(block.header.height) ==> IdleBoundary(base, block.header))
  }

  ghost predicate EachProposed(genesis: Columns, blocks: seq<Block>, height: u64) {
    forall i :: 0 <= i < |blocks| ==> ProposedOn(Chain.After(genesis, blocks[..i]), blocks[i], height)
  }

  lemma ProposedIsDoomed(base: Columns, block: Block, job: JobId, height: u64)
    requires RefundDue(base, job, height) && ProposedOn(base, block, height)
    ensures Doomed(base, block)
  {
    hide PoolBuilt, Bounded, BoundaryDue, IdleBoundary;
    RefundStaysDue(base, job, height, block.header.height);
  }

  lemma LastProposed(genesis: Columns, blocks: seq<Block>, height: u64)
    requires blocks != [] && EachProposed(genesis, blocks, height)
    ensures var n := |blocks| - 1;
      EachProposed(genesis, blocks[..n], height) && ProposedOn(Chain.After(genesis, blocks[..n]), blocks[n], height)
  {
    hide ProposedOn, Chain.After;
    var n := |blocks| - 1;
    forall i | 0 <= i < n
      ensures ProposedOn(Chain.After(genesis, blocks[..n][..i]), blocks[..n][i], height)
    {
      assert blocks[..n][..i] == blocks[..i];
      assert ProposedOn(Chain.After(genesis, blocks[..i]), blocks[i], height);
    }
  }

  /** One expired escrow is enough: whatever proposers build from then on, each on the state of its turn,
      nothing is ever accepted again. */
  lemma {:induction false} ExpiredEscrowStallsForEver(genesis: Columns, blocks: seq<Block>, job: JobId, height: u64)
    requires RefundDue(genesis, job, height) && EachProposed(genesis, blocks, height)
    ensures Chain.After(genesis, blocks) == genesis && Chain.Landed(genesis, blocks) == []
  {
    if blocks != [] {
      hide Doomed, Next, Landing, Accepts, ProposedOn, EachProposed, RefundDue;
      var earlier, block := blocks[..|blocks| - 1], blocks[|blocks| - 1];
      LastProposed(genesis, blocks, height);
      ExpiredEscrowStallsForEver(genesis, earlier, job, height);
      ProposedIsDoomed(genesis, block, job, height);
      DoomedRefused(genesis, block);
      NothingLands(genesis, block);
    }
  }
}
