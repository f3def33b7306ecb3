/**
 Whether a block is accepted on the state it was built from. The builder refunds expired
 escrows and stops; commit replays the transactions and, at epoch boundaries, mints and runs
 the governance pass. The two agree on the account root only where all of that moves nothing.
 */
module Acceptance {
  import opened Numeric
  import opened MapSums
  import opened Types
  import opened LedgerSpec
  import opened Store
  import opened KeyOrder
  import opened Governance
  import opened Blocks
  import opened Supply
  import opened Conservation
  import Chain
  import Emission
  import Lifecycle
  import Mempool
  import Nonces
  import Replay
  import ValidatorSet

  // ----- Refunds -----

  lemma SameAccounts(m: Accounts, n: Accounts)
    requires NoEmptyAccounts(m) && NoEmptyAccounts(n) && forall a :: AccountAt(m, a) == AccountAt(n, a)
    ensures m == n
  {
    forall a
      ensures a in m <==> a in n
      ensures a in m ==> m[a] == n[a]
    {
      assert AccountAt(m, a) == AccountAt(n, a);
    }
  }

  /** Whether crediting the due escrows moves no balance. */
  predicate NothingMoves(accounts: Accounts, due: Escrows) {
    forall j :: j in due ==> due[j].amount == 0 || AccountAt(accounts, due[j].user).balance == U128_MAX
  }

  lemma {:induction false} ZeroSum(due: Escrows)
    requires forall j :: j in due ==> due[j].amount == 0
    ensures Sum(due, HeldAmount) == 0
    decreases |due|
  {
    if due != map[] {
      var j :| j in due;
      assert (due - {j}).Keys == due.Keys - {j} && |(due - {j}).Keys| < |due.Keys|;
      SumRemove(due, HeldAmount, j);
      ZeroSum(due - {j});
    }
  }

  lemma CreditsMove(before: Accounts, after: Accounts, due: Escrows)
    requires NoEmptyAccounts(before) && NoEmptyAccounts(after) && CreditedWith(before, after, due)
    ensures after == before <==> NothingMoves(before, due)
  {
    if NothingMoves(before, due) {
      forall a
        ensures AccountAt(after, a) == AccountAt(before, a)
      {
        if AccountAt(before, a).balance < U128_MAX {
          ZeroSum(OwedTo(due, a));
        }
      }
      SameAccounts(before, after);
    }
    if after == before {
      forall j | j in due && due[j].amount > 0
        ensures AccountAt(before, due[j].user).balance == U128_MAX
      {
        var a := due[j].user;
        SumAtLeast(OwedTo(due, a), HeldAmount, j);
        assert AccountAt(after, a) == Raised(AccountAt(before, a), DueTo(due, a));
      }
    }
  }

  // ----- The governance pass -----

  ghost predicate DepositKept(base: Columns, accounts: Accounts, now: u64, id: u64)
    requires id in base.proposals
  {
    var r := base.proposals[id];
    r.phase == Voting && now >= r.proposal.votingEnds ==>
      var verdict := Evaluate(TallyOf(base.votes, id, accounts), TotalBonded(base.stakes));
      verdict.Resolved? && (verdict.phase == RejectedWithVeto || r.proposal.deposit == 0)
  }

  /** On the state the pass starts from: every vote that is over ends in a veto, or its
      deposit is nothing. */
  ghost predicate DepositsKept(base: Columns, accounts: Accounts, now: u64) {
    forall id :: id in base.proposals ==> DepositKept(base, accounts, now, id)
  }

  ghost predicate Lined(base: Columns, book: GovBook, ids: seq<u64>) {
    && (forall id :: id in ids ==> id in base.proposals) && Ascending(ids)
    && (forall id :: id in base.proposals ==> id in book.proposals && book.proposals[id] == base.proposals[id])
    && GovHeld(book) <= U128_MAX
  }

  lemma LinedPrefix(base: Columns, book: GovBook, ids: seq<u64>)
    requires Lined(base, book, ids) && ids != []
    ensures Lined(base, book, ids[..|ids| - 1]) && ids[|ids| - 1] !in ids[..|ids| - 1]
  {
  }

  /** One proposal: a kept deposit leaves the accounts alone; any other aborts the pass or
      raises the balances. */
  lemma OneKept(base: Columns, book: GovBook, id: u64, now: u64)
    requires id in base.proposals && id in book.proposals && book.proposals[id] == base.proposals[id]
      && GovHeld(book) <= U128_MAX
    ensures var r := AdvanceOne(base, book, id, now);
      && (r.Some? ==> Sum(book.accounts, Balance) <= Sum(r.value.accounts, Balance))
      && (if DepositKept(base, book.accounts, now, id) then r.Some? && r.value.accounts == book.accounts
          else r.None? || Sum(book.accounts, Balance) < Sum(r.value.accounts, Balance))
  {
    hide Evaluate, TallyOf, TotalBonded, Credit;
    var record := base.proposals[id];
    SumAtLeast(book.proposals, OpenDeposit, id);
    if record.phase == Voting {
      CreditSum(book.accounts, record.proposal.proposer, record.proposal.deposit);
    }
  }

  lemma LinedFacts(base: Columns, book: GovBook, ids: seq<u64>)
    requires Lined(base, book, ids) && ids != []
    ensures var earlier, id := ids[..|ids| - 1], ids[|ids| - 1];
      && id in base.proposals && id !in earlier && (forall i :: i in ids <==> i in earlier || i == id)
      && (forall i :: i in earlier ==> i in base.proposals) && Ascending(earlier)
      && (forall i :: i in base.proposals ==> i in book.proposals && book.proposals[i] == base.proposals[i])
      && GovHeld(book) <= U128_MAX
  {
  }

  /** The pass goes through without moving a balance exactly when every deposit is kept. */
  lemma {:induction false} PassKept(base: Columns, book: GovBook, ids: seq<u64>, now: u64)
    requires Lined(base, book, ids)
    ensures var r := Advance(base, book, ids, now);
      && (r.Some? ==> Sum(book.accounts, Balance) <= Sum(r.value.accounts, Balance))
      && (if forall id :: id in ids ==> DepositKept(base, book.accounts, now, id)
          then r.Some? && r.value.accounts == book.accounts
          else r.None? || Sum(book.accounts, Balance) < Sum(r.value.accounts, Balance))
    decreases |ids|
  {
    hide AdvanceOne, GovHeld, DepositKept, Lined;
    if ids != [] {
      var earlier, id := ids[..|ids| - 1], ids[|ids| - 1];
      LinedPrefix(base, book, ids);
      LinedFacts(base, book, ids);
      PassKept(base, book, earlier, now);
      if Advance(base, book, earlier, now).Some? {
        var before := Advance(base, book, earlier, now).value;
        Lifecycle.AdvanceSteps(base, book, earlier, now);
        AdvanceConserves(base, book, earlier, now);
        OneKept(base, before, id, now);
      }
    }
  }

  // ----- The whole boundary -----

  lemma HeldBound(live: Columns)
    ensures Sum(live.accounts, Balance) <= GovHeld(GovOf(live))
  {
  }

  lemma MintedBook(live: Columns, validators: map<NodeId, ValidatorInfo>, b: Emission.MintBook)
    ensures GovOf(Emission.WithMint(WithRotation(live, validators), b)) == GovOf(live).(accounts := b.accounts)
  {
  }

  lemma HeldMoved(b: GovBook, accounts: Accounts)
    ensures GovHeld(b.(accounts := accounts)) == GovHeld(b) - Sum(b.accounts, Balance) + Sum(accounts, Balance)
  {
  }

  lemma LinedAfterMint(base: Columns, live: Columns, c: Columns, accounts: Accounts)
    requires Lifecycle.Extended(base, live) && GovOf(c) == GovOf(live).(accounts := accounts)
    requires GovHeld(GovOf(live)) - Sum(live.accounts, Balance) + Sum(accounts, Balance) <= U128_MAX
    ensures Lined(base, GovOf(c), IdsInOrder(base.proposals.Keys))
  {
    HeldMoved(GovOf(live), accounts);
    hide GovHeld;
  }

  lemma PassFromMint(base: Columns, live: Columns, c: Columns, accounts: Accounts, now: u64)
    requires Lifecycle.Extended(base, live) && GovOf(c) == GovOf(live).(accounts := accounts)
    requires GovHeld(GovOf(live)) - Sum(live.accounts, Balance) + Sum(accounts, Balance) <= U128_MAX
    ensures var r := AfterGovernance(base, c, now);
      && (r.Some? ==> Sum(accounts, Balance) <= Sum(r.value.accounts, Balance))
      && (if DepositsKept(base, accounts, now) then r.Some? && r.value.accounts == accounts
          else r.None? || Sum(accounts, Balance) < Sum(r.value.accounts, Balance))
  {
    hide Advance, DepositKept, GovHeld, Lined;
    LinedAfterMint(base, live, c, accounts);
    PassKept(base, GovOf(c), IdsInOrder(base.proposals.Keys), now);
    hide GovOf, WithGov, Lifecycle.Extended;
    GovBookLaws(c, GovOf(c), Advance(base, GovOf(c), IdsInOrder(base.proposals.Keys), now).GetOr(GovOf(c)));
  }

  /** Mint and governance together move a balance exactly when a reward of the ending epoch is
      worth something or a deposit is not kept. */
  lemma BoundaryIdleExactly(base: Columns, live: Columns, header: Header)
    requires Lifecycle.Extended(base, live) && IsEpochBoundary(header.height)
    requires GovHeld(GovOf(live)) + Emission.BudgetOr0(header.height) <= U128_MAX
    ensures var r := Rotated(base, live, header);
      r.Some? && r.value.accounts == live.accounts <==>
        Emission.NothingEarned(base, header.height) && DepositsKept(base, live.accounts, header.timestamp)
  {
    hide Advance, GovHeld, Emission.Mint, Emission.NothingEarned, DepositKept, ValidatorSet.RotatedValidators, Lined,
      WithGov, GovOf;
    hide Emission.WithMint, WithRotation;
    var mint := Emission.Mint(base, live.accounts, live.pendingRewards, header.height);
    Emission.MintIdleExactly(base, live.accounts, live.pendingRewards, header.height) by { HeldBound(live); }
    if mint.Some? {
      var validators := ValidatorSet.RotatedValidators(base, live.validators, header.height);
      var c := AfterMint(base, live, header.height).value;
      Emission.MintSum(base, live.accounts, live.pendingRewards, header.height) by { HeldBound(live); }
      if !Emission.NothingEarned(base, header.height) {
        Emission.MintRaises(base, live.accounts, live.pendingRewards, header.height) by { HeldBound(live); }
      }
      MintedBook(live, validators, mint.value);
      PassFromMint(base, live, c, mint.value.accounts, header.timestamp);
    }
  }

  // ----- Blocks -----

  /** A block built from `txs` on `base`, accusing nobody. */
  ghost predicate Built(base: Columns, txs: seq<SignedTx>, block: Block) {
    && RunAll(base, txs).Pass? && block.txs == RunAll(base, txs).kept
    && NoEmptyAccounts(base.accounts)
    && ProposedRoot(base, RunAll(base, txs).live, block.header.height, block.header.stateRoot)
    && forall stx :: stx in block.txs ==> !Accuses(stx.tx)
  }

  /** What commit has before the boundary work, of a built block. */
  lemma BuiltReplay(base: Columns, txs: seq<SignedTx>, block: Block)
    requires Built(base, txs, block)
    ensures var live, again := RunAll(base, txs).live, RunAll(base, block.txs);
      && again.Pass? && again.live.accounts == live.accounts && GovOf(again.live) == GovOf(live)
      && SlashAll(base, again.live, block.txs) == Some(again.live)
      && NoEmptyAccounts(live.accounts)
  {
    hide RunAll, CreditedWith, NoEmptyAccounts, Expired;
    Replay.ReplayEquivalence(base, txs);
    Nonces.PassNonces(base, txs, OfTreasuryTag);
    NobodyAccused(base, RunAll(base, block.txs).live, block.txs);
  }

  /** Acceptance of a built block is up to the boundary work alone. */
  lemma BuiltAcceptedExactly(base: Columns, txs: seq<SignedTx>, block: Block)
    requires Built(base, txs, block)
    ensures var again := RunAll(base, block.txs);
      again.Pass? &&
      (Accepts(base, block) <==>
        var r := Rotated(base, again.live, block.header); r.Some? && r.value.accounts == block.header.stateRoot.leaves)
  {
    BuiltReplay(base, txs, block);
    hide RunAll, SlashAll, Rotated, ProposedRoot, NoEmptyAccounts;
  }

  /** Away from epoch boundaries: accepted exactly when the proposer's refunds moved no
      balance, since commit does not replay them. */
  lemma BuiltBlockCommitsExactly(base: Columns, txs: seq<SignedTx>, block: Block)
    requires Built(base, txs, block) && !IsEpochBoundary(block.header.height)
    ensures Accepts(base, block) <==>
      NothingMoves(RunAll(base, txs).live.accounts, Expired(base.escrows, block.header.height))
  {
    BuiltReplay(base, txs, block);
    hide RunAll, SlashAll, CreditedWith, NothingMoves, NoEmptyAccounts, Expired;
    CreditsMove(RunAll(base, txs).live.accounts, block.header.stateRoot.leaves,
      Expired(base.escrows, block.header.height));
  }

  /** At an epoch boundary with no refund due: accepted exactly when the ending epoch earned
      nothing and the governance pass returns no deposit, since the builder runs neither. */
  lemma BoundaryBlockCommitsExactly(base: Columns, txs: seq<SignedTx>, block: Block)
    requires Built(base, txs, block) && IsEpochBoundary(block.header.height) && Lifecycle.FreshIds(base)
    requires NothingMoves(RunAll(base, txs).live.accounts, Expired(base.escrows, block.header.height))
    requires GovHeld(GovOf(RunAll(base, txs).live)) + Emission.BudgetOr0(block.header.height) <= U128_MAX
    ensures Accepts(base, block) <==>
      && Emission.NothingEarned(base, block.header.height)
      && DepositsKept(base, RunAll(base, txs).live.accounts, block.header.timestamp)
  {
    BuiltReplay(base, txs, block);
    BuiltAcceptedExactly(base, txs, block);
    hide RunAll, SlashAll, Accepts, Rotated, CreditedWith, NothingMoves, NoEmptyAccounts, Expired;
    hide GovHeld, DepositsKept, Lifecycle.Extended, Emission.NothingEarned;
    CreditsMove(RunAll(base, txs).live.accounts, block.header.stateRoot.leaves,
      Expired(base.escrows, block.header.height));
    Lifecycle.PassProposals(base, block.txs);
    BoundaryIdleExactly(base, RunAll(base, block.txs).live, block.header);
  }

  /** What the boundary work makes of an account: the mint first, then the deposits returned to it. */
  ghost function BoundaryAccount(base: Columns, live: Columns, header: Header, a: Address): Account
    requires Rotated(base, live, header).Some? && AfterMint(base, live, header.height).Some?
  {
    Raised(AccountAt(AfterMint(base, live, header.height).value.accounts, a),
      Lifecycle.ReturnedSum(base.proposals, Rotated(base, live, header).value.proposals, base.proposals.Keys, a))
  }

  /** Whether mint and returned deposits give every account exactly what the refunds give it. */
  ghost predicate BoundaryPaysRefunds(base: Columns, live: Columns, header: Header) {
    && Rotated(base, live, header).Some? && AfterMint(base, live, header.height).Some?
    && forall a :: BoundaryAccount(base, live, header, a) ==
         Raised(AccountAt(live.accounts, a), DueTo(Expired(base.escrows, header.height), a))
  }

  lemma BoundaryAccounts(base: Columns, live: Columns, header: Header, a: Address)
    requires IsEpochBoundary(header.height) && Lifecycle.Extended(base, live) && Rotated(base, live, header).Some?
    ensures AfterMint(base, live, header.height).Some?
    ensures AccountAt(Rotated(base, live, header).value.accounts, a) == BoundaryAccount(base, live, header, a)
    ensures NoEmptyAccounts(live.accounts) ==> NoEmptyAccounts(Rotated(base, live, header).value.accounts)
  {
    hide Rotated, AfterMint, AccountAt, Raised, Lifecycle.ReturnedSum, Lifecycle.Extended;
    Lifecycle.BoundaryCredits(base, live, header, a);
    Chain.RotatedHarmless(base, live, header, a);
  }

  lemma MatchesRootExactly(base: Columns, live: Columns, header: Header)
    requires IsEpochBoundary(header.height) && Lifecycle.Extended(base, live)
    requires NoEmptyAccounts(live.accounts) && ProposedRoot(base, live, header.height, header.stateRoot)
    ensures var r := Rotated(base, live, header);
      r.Some? && r.value.accounts == header.stateRoot.leaves <==> BoundaryPaysRefunds(base, live, header)
  {
    hide Rotated, AfterMint, NoEmptyAccounts, AccountAt, Raised, Lifecycle.Extended, DueTo, Expired, BoundaryAccount;
    var r := Rotated(base, live, header);
    if r.Some? {
      forall a
        ensures AfterMint(base, live, header.height).Some?
        ensures AccountAt(r.value.accounts, a) == BoundaryAccount(base, live, header, a)
      {
        BoundaryAccounts(base, live, header, a);
      }
      BoundaryAccounts(base, live, header, OfTreasuryTag);
      if BoundaryPaysRefunds(base, live, header) {
        forall a
          ensures AccountAt(r.value.accounts, a) == AccountAt(header.stateRoot.leaves, a)
        {
          assert AccountAt(r.value.accounts, a) == BoundaryAccount(base, live, header, a);
        }
        SameAccounts(r.value.accounts, header.stateRoot.leaves);
      }
    }
  }

  lemma RootOfReplay(base: Columns, live: Columns, again: Columns, header: Header)
    requires ProposedRoot(base, live, header.height, header.stateRoot) && again.accounts == live.accounts
    ensures ProposedRoot(base, again, header.height, header.stateRoot)
  {
  }

  /** At every epoch boundary, whatever is due: accepted exactly when the boundary work of commit
      gives each account what the refunds of the builder gave it. */
  lemma BoundaryBlockDecided(base: Columns, txs: seq<SignedTx>, block: Block)
    requires Built(base, txs, block) && IsEpochBoundary(block.header.height) && Lifecycle.FreshIds(base)
    ensures RunAll(base, block.txs).Pass?
    ensures Accepts(base, block) <==> BoundaryPaysRefunds(base, RunAll(base, block.txs).live, block.header)
  {
    BuiltReplay(base, txs, block);
    BuiltAcceptedExactly(base, txs, block);
    hide RunAll, SlashAll, Accepts, Rotated, CreditedWith, NoEmptyAccounts, Expired;
    hide Lifecycle.Extended, BoundaryPaysRefunds;
    Lifecycle.PassProposals(base, block.txs);
    RootOfReplay(base, RunAll(base, txs).live, RunAll(base, block.txs).live, block.header);
    MatchesRootExactly(base, RunAll(base, block.txs).live, block.header);
  }

  /** One expired escrow is enough: the block its proposer built is refused. */
  lemma ExpiredEscrowStalls(base: Columns, txs: seq<SignedTx>, block: Block, job: JobId)
    requires Built(base, txs, block) && !IsEpochBoundary(block.header.height)
    requires job in base.escrows && IsExpired(base.escrows[job], block.header.height) && base.escrows[job].amount > 0
    requires AccountAt(RunAll(base, txs).live.accounts, base.escrows[job].user).balance < U128_MAX
    ensures Next(base, block) == base
  {
    hide RunAll, ProposedRoot, NoEmptyAccounts, Replayed, AccountAt;
    BuiltBlockCommitsExactly(base, txs, block);
    assert job in Expired(base.escrows, block.header.height);
  }

  // ----- Building and committing -----

  lemma LanesAccuseNobody(txs: seq<SignedTx>)
    requires forall stx :: stx in txs ==> Mempool.LaneOf(stx.tx).Lane?
    ensures forall stx :: stx in txs ==> !Accuses(stx.tx)
  {
  }

  /** An accepted block leaves the ledger its proposer computed, after the boundary work if any. */
  lemma CommittedIsBuilt(base: Columns, txs: seq<SignedTx>, block: Block)
    requires Built(base, txs, block) && RunAll(base, block.txs) == RunAll(base, txs)
    requires Accepts(base, block)
    ensures var pass := RunAll(base, txs);
      var r := Rotated(base, pass.live, block.header);
      r.Some? && Next(base, block) == Sealed(r.value, block.header, pass.gas)
    ensures !IsEpochBoundary(block.header.height) ==>
      Next(base, block) == Sealed(RunAll(base, txs).live, block.header, RunAll(base, txs).gas)
  {
    BuiltReplay(base, txs, block);
    hide RunAll, SlashAll, Sealed;
  }

  /** What becomes of a block its proposer builds from the pool and commits on the same state. */
  ghost predicate Becomes(base: Columns, pass: Pass, header: Header, r: CommitResult, after: Columns) {
    if pass.Aborted? then r == Overflowed && after == base
    else
      var refunds := NothingMoves(pass.live.accounts, Expired(base.escrows, header.height));
      && (!IsEpochBoundary(header.height) ==>
            if refunds then r.Committed? && after == Sealed(pass.live, header, pass.gas)
              else !r.Committed? && after == base)
      && (IsEpochBoundary(header.height) && Lifecycle.FreshIds(base) ==>
            if BoundaryPaysRefunds(base, pass.live, header) then
              && r.Committed?
              && after == Sealed(Rotated(base, pass.live, header).value, header, pass.gas)
            else !r.Committed? && after == base)
      && (IsEpochBoundary(header.height) && refunds && Lifecycle.FreshIds(base)
          && GovHeld(GovOf(pass.live)) + Emission.BudgetOr0(header.height) <= U128_MAX ==>
            (r.Committed? <==>
              && Emission.NothingEarned(base, header.height)
              && DepositsKept(base, pass.live.accounts, header.timestamp)))
  }

  lemma DecidedAtBoundary(base: Columns, txs: seq<SignedTx>, block: Block, r: CommitResult)
    requires Built(base, txs, block) && RunAll(base, block.txs) == RunAll(base, txs)
    requires r.Committed? <==> Accepts(base, block)
    requires IsEpochBoundary(block.header.height) && Lifecycle.FreshIds(base)
    ensures Becomes(base, RunAll(base, txs), block.header, r, Next(base, block))
  {
    hide RunAll, ProposedRoot, NothingMoves, Expired, Replayed, Sealed, GovHeld, DepositsKept, Emission.NothingEarned;
    hide NoEmptyAccounts, Lifecycle.FreshIds, Rotated, BoundaryPaysRefunds;
    var pass := RunAll(base, txs);
    BoundaryBlockDecided(base, txs, block);
    if Accepts(base, block) {
      CommittedIsBuilt(base, txs, block);
    }
    if NothingMoves(pass.live.accounts, Expired(base.escrows, block.header.height)) {
      if GovHeld(GovOf(pass.live)) + Emission.BudgetOr0(block.header.height) <= U128_MAX {
        BoundaryBlockCommitsExactly(base, txs, block);
      }
    }
  }

  lemma Decided(base: Columns, txs: seq<SignedTx>, block: Block, r: CommitResult)
    requires Built(base, txs, block) && RunAll(base, block.txs) == RunAll(base, txs)
      && (r.Committed? <==> Accepts(base, block))
    ensures Becomes(base, RunAll(base, txs), block.header, r, Next(base, block))
  {
    var pass := RunAll(base, txs);
    hide RunAll, ProposedRoot, NothingMoves, Expired, Replayed, Sealed, GovHeld, DepositsKept, Emission.NothingEarned,
      Lifecycle.FreshIds;
    hide NoEmptyAccounts;
    if !IsEpochBoundary(block.header.height) {
      BuiltBlockCommitsExactly(base, txs, block);
      if Accepts(base, block) {
        CommittedIsBuilt(base, txs, block);
      }
    } else if Lifecycle.FreshIds(base) {
      DecidedAtBoundary(base, txs, block, r);
    }
  }

  /** Builds a block from the pool, which holds nothing that accuses anyone. */
  method Propose(s: State, pool: Mempool.Pool, height: u64, timestamp: u64, baseFee: u128, gasLimit: u64,
      bytesBudget: u64)
    returns (block: Option<Block>, ghost drained: seq<SignedTx>)
    requires s.Valid() && pool.Valid()
    modifies s, pool
    ensures s.Valid() && pool.Valid() && s.db == old(s.db)
    ensures block.None? <==> RunAll(s.db, drained).Aborted?
    ensures block.Some? ==>
      && Built(s.db, drained, block.value) && RunAll(s.db, block.value.txs) == RunAll(s.db, drained)
      && block.value.header == Header(height, timestamp, baseFee, block.value.header.stateRoot)
  {
    hide RunAll, ProposedRoot, NoEmptyAccounts, Mempool.Drained;
    var picked;
    ghost var entries;
    block, picked, entries := BuildBlock(s, pool, height, timestamp, baseFee, gasLimit, bytesBudget);
    drained := picked;
    if block.Some? {
      LanesAccuseNobody(block.value.txs);
    }
  }

  /** A proposer that builds a block from its pool and then commits it. */
  method ProposeAndCommit(s: State, pool: Mempool.Pool, height: u64, timestamp: u64, baseFee: u128, gasLimit: u64,
      bytesBudget: u64)
    returns (r: CommitResult, ghost drained: seq<SignedTx>, ghost root: StateRoot)
    requires s.Valid() && pool.Valid()
    modifies s, pool
    ensures s.Valid() && pool.Valid()
    ensures Becomes(old(s.db), RunAll(old(s.db), drained), Header(height, timestamp, baseFee, root), r, s.db)
  {
    hide RunAll, Built, Replayed, Mempool.Without, Next, Accepts, Landing;
    ghost var base := s.db;
    var block;
    block, drained := Propose(s, pool, height, timestamp, baseFee, gasLimit, bytesBudget);
    root := StateRoot(map[]);
    r := Overflowed;
    if block.Some? {
      root := block.value.header.stateRoot;
      r := CommitBlock(s, pool, block.value);
      Decided(base, drained, block.value, r);
    }
  }
}
