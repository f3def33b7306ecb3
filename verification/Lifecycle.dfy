/**
 Proposals over whole chains: phases only move forward, one step per epoch boundary, and
 a deposit is returned at most once.
 */
module Lifecycle {
  import opened Numeric
  import opened MapSums
  import opened Types
  import opened LedgerSpec
  import opened KeyOrder
  import opened Governance
  import opened Blocks
  import Chain
  import Replay
  import Slashing
  import ValidatorSet
  import Emission

  type Proposals = map<u64, ProposalRecord>

  // ----- Transactions -----

  predicate SameGov(c: Columns, d: Columns) {
    d.proposals == c.proposals && d.nextProposalId == c.nextProposalId && d.votes == c.votes
  }

  lemma AccountsKeepGov(live: Columns)
    ensures forall d :: SameGov(live, OnAccounts(live, d).live)
    ensures forall d :: SameGov(live, OnStakes(live, d).live)
  {
  }

  lemma EscrowsKeepGov(live: Columns)
    ensures forall d :: SameGov(live, OnEscrows(live, d).live)
    ensures forall d :: SameGov(live, OnReceipts(live, d).live)
  {
  }

  lemma ModelsKeepGov(live: Columns)
    ensures forall d :: SameGov(live, OnModels(live, d).live)
    ensures forall d :: SameGov(live, OnRegistry(live, d).live)
  {
  }

  lemma OthersKeepGov(base: Columns, live: Columns, stx: SignedTx)
    requires !stx.tx.Propose? && !stx.tx.Vote?
    ensures SameGov(live, Apply(base, live, stx).live)
  {
    AccountsKeepGov(live);
    EscrowsKeepGov(live);
    ModelsKeepGov(live);
    hide Transferred, ModelRegistered, Settling, Locking, Anchored, Disputed, Minted, InBootstrap, StakeOpApplied;
    hide OnAccounts, OnStakes, OnEscrows, OnReceipts, OnModels, OnRegistry, TeeRegistered, GatewayRegistered,
      GatewayRemoved;
  }

  /** A proposal that applies is recorded under the committed counter, in discussion. */
  lemma StepProposals(base: Columns, live: Columns, stx: SignedTx)
    requires Apply(base, live, stx).outcome.Applied?
    ensures var after := Apply(base, live, stx).live;
      if stx.tx.Propose? then
        && after.proposals ==
          live.proposals[base.nextProposalId := ProposalRecord(stx.tx.proposal, Discussion, live.height)]
        && after.nextProposalId == base.nextProposalId + 1
      else after.proposals == live.proposals && after.nextProposalId == live.nextProposalId
  {
    if !stx.tx.Propose? && !stx.tx.Vote? {
      OthersKeepGov(base, live, stx);
    }
  }

  /** Identifiers in use are below the counter. */
  predicate FreshIds(c: Columns) {
    forall id :: id in c.proposals ==> id < c.nextProposalId
  }

  /** The transactions of one block left every committed proposal alone and opened at most
      one new identifier. */
  predicate Extended(base: Columns, live: Columns) {
    && (forall id :: id in base.proposals ==> id in live.proposals && live.proposals[id] == base.proposals[id])
    && (forall id :: id in live.proposals && id !in base.proposals ==>
          id == base.nextProposalId && live.nextProposalId == id + 1 && live.proposals[id].phase == Discussion)
    && base.nextProposalId <= live.nextProposalId
  }

  lemma ExtendedAfter(base: Columns, live: Columns, stx: SignedTx)
    requires Extended(base, live) && FreshIds(base) && !Apply(base, live, stx).outcome.Panicked?
    ensures Extended(base, Apply(base, live, stx).live)
  {
    hide Apply;
    if Apply(base, live, stx).outcome.Applied? {
      StepProposals(base, live, stx);
    } else {
      Replay.RejectedLeavesLedgerExactly(base, live, stx);
    }
  }

  lemma {:induction false} PassProposals(base: Columns, txs: seq<SignedTx>)
    requires RunAll(base, txs).Pass? && FreshIds(base)
    ensures Extended(base, RunAll(base, txs).live)
  {
    if txs != [] {
      var earlier := txs[..|txs| - 1];
      PassProposals(base, earlier);
      hide Apply, Extended, FreshIds;
      ExtendedAfter(base, RunAll(base, earlier).live, txs[|txs| - 1]);
    }
  }

  // ----- The epoch pass -----

  /** The moves an epoch boundary may make on a proposal, whose content never changes. */
  predicate PhaseStep(r: ProposalRecord, r': ProposalRecord) {
    && r'.proposal == r.proposal && r'.submittedAt == r.submittedAt
    && (r'.phase == r.phase
        || (r.phase == Discussion && r'.phase == Voting)
        || (r.phase == Voting && r'.phase in {Passed, Rejected, RejectedWithVeto}))
  }

  lemma VerdictPhases(t: Tally, bonded: u128)
    ensures Evaluate(t, bonded).Resolved? ==> Evaluate(t, bonded).phase in {Passed, Rejected, RejectedWithVeto}
  {
  }

  lemma ResolveSteps(votes: Votes, bonded: u128, accounts: Accounts, id: u64, record: ProposalRecord, now: u64)
    ensures var r := Resolve(votes, bonded, accounts, id, record, now);
      r.Moved? ==>
        && PhaseStep(record, r.record) && r.record.phase != record.phase
        && (r.refund <==> r.record.phase in {Passed, Rejected})
  {
    VerdictPhases(TallyOf(votes, id, accounts), bonded);
    hide Evaluate, TallyOf;
  }

  lemma {:induction false} AdvanceSteps(base: Columns, book: GovBook, ids: seq<u64>, now: u64)
    requires (forall id :: id in ids ==> id in base.proposals) && Advance(base, book, ids, now).Some?
    requires forall id :: id in base.proposals ==> id in book.proposals && book.proposals[id] == base.proposals[id]
    ensures var after := Advance(base, book, ids, now).value;
      && after.proposals.Keys == book.proposals.Keys
      && after.nextProposalId == book.nextProposalId && after.votes == book.votes
      && (forall id :: id in base.proposals ==> PhaseStep(base.proposals[id], after.proposals[id]))
      && (forall id :: id in book.proposals && id !in ids ==> after.proposals[id] == book.proposals[id])
    decreases |ids|
  {
    hide Resolve;
    if ids != [] {
      var earlier, id := ids[..|ids| - 1], ids[|ids| - 1];
      AdvanceSteps(base, book, earlier, now);
      var before := Advance(base, book, earlier, now).value;
      ResolveSteps(base.votes, TotalBonded(base.stakes), before.accounts, id, base.proposals[id], now);
    }
  }

  // ----- Blocks and chains -----

  ghost predicate BlockSteps(base: Columns, next: Columns, epoch: bool) {
    && FreshIds(next)
    && (forall id :: id in base.proposals ==> id in next.proposals)
    && (forall id :: id in base.proposals ==> PhaseStep(base.proposals[id], next.proposals[id]))
    && (!epoch ==> forall id :: id in base.proposals ==> next.proposals[id] == base.proposals[id])
    && (forall id :: id in next.proposals && id !in base.proposals ==> next.proposals[id].phase == Discussion)
  }

  lemma {:induction false} SlashesKeepGov(base: Columns, live: Columns, txs: seq<SignedTx>)
    requires SlashAll(base, live, txs).Some?
    ensures SameGov(live, SlashAll(base, live, txs).value)
  {
    hide Slashing.Slashed;
    if txs != [] {
      SlashesKeepGov(base, live, txs[..|txs| - 1]);
    }
  }

  lemma ExtendedAfterSlash(base: Columns, live: Columns, slashed: Columns)
    requires Extended(base, live) && SameGov(live, slashed)
    ensures Extended(base, slashed)
  {
  }

  lemma MintKeepsGov(live: Columns, validators: map<NodeId, ValidatorInfo>, b: Emission.MintBook)
    ensures SameGov(live, Emission.WithMint(WithRotation(live, validators), b))
  {
  }

  /** What the governance pass starts from at a boundary: the proposals of the block, the
      accounts after the mint. */
  lemma PassStart(base: Columns, live: Columns, header: Header)
    requires IsEpochBoundary(header.height) && Rotated(base, live, header).Some?
    ensures var c := AfterMint(base, live, header.height);
      && c.Some? && SameGov(live, c.value)
      && Advance(base, GovOf(c.value), IdsInOrder(base.proposals.Keys), header.timestamp).Some?
      && GovOf(Rotated(base, live, header).value) ==
         Advance(base, GovOf(c.value), IdsInOrder(base.proposals.Keys), header.timestamp).value
  {
    hide Advance, Emission.Mint, ValidatorSet.RotatedValidators, WithGov, GovOf, Emission.WithMint, WithRotation;
    var validators := ValidatorSet.RotatedValidators(base, live.validators, header.height);
    MintKeepsGov(live, validators, Emission.Mint(base, live.accounts, live.pendingRewards, header.height).value);
    var c := AfterMint(base, live, header.height).value;
    GovernanceKeepsRest(c, Advance(base, GovOf(c), IdsInOrder(base.proposals.Keys), header.timestamp).value);
  }

  lemma StepsFrom(base: Columns, live: Columns, c: Columns, after: Columns, now: u64)
    requires FreshIds(base) && Extended(base, live) && SameGov(live, c)
    requires Advance(base, GovOf(c), IdsInOrder(base.proposals.Keys), now) == Some(GovOf(after))
    ensures BlockSteps(base, after, true) && after.votes == live.votes
  {
    hide Advance, PhaseStep;
    AdvanceSteps(base, GovOf(c), IdsInOrder(base.proposals.Keys), now);
  }

  lemma RotatedSteps(base: Columns, live: Columns, header: Header)
    requires FreshIds(base) && Extended(base, live) && Rotated(base, live, header).Some?
    ensures BlockSteps(base, Rotated(base, live, header).value, IsEpochBoundary(header.height))
    ensures Rotated(base, live, header).value.votes == live.votes
  {
    if IsEpochBoundary(header.height) {
      PassStart(base, live, header);
      hide Advance, AfterMint, Rotated, GovOf, SameGov, Extended, BlockSteps;
      StepsFrom(base, live, AfterMint(base, live, header.height).value, Rotated(base, live, header).value,
        header.timestamp);
    }
  }

  /** Every block moves each proposal by at most one phase, forward, and only at an epoch
      boundary; it adds proposals only in discussion and under new identifiers. */
  lemma NextSteps(base: Columns, block: Block)
    requires FreshIds(base)
    ensures BlockSteps(base, Next(base, block), IsEpochBoundary(block.header.height))
  {
    hide RunAll, SlashAll, Rotated, Extended, SameGov, IsEpochBoundary;
    if Accepts(base, block) {
      var live := RunAll(base, block.txs).live;
      PassProposals(base, block.txs);
      SlashesKeepGov(base, live, block.txs);
      var slashed := SlashAll(base, live, block.txs).value;
      ExtendedAfterSlash(base, live, slashed);
      RotatedSteps(base, slashed, block.header);
    }
  }

  function Rank(p: ProposalPhase): nat {
    match p
    case Discussion => 0
    case Voting => 1
    case _ => 2
  }

  /** Later in the chain a proposal is as far or further, and a resolved one is as it was. */
  predicate Onward(r: ProposalRecord, r': ProposalRecord) {
    && r'.proposal == r.proposal && r'.submittedAt == r.submittedAt
    && Rank(r.phase) <= Rank(r'.phase) && (Terminal(r.phase) ==> r' == r)
  }

  ghost predicate AllOnward(was: Proposals, now: Proposals) {
    forall id :: id in was ==> id in now && Onward(was[id], now[id])
  }

  lemma BlockOnward(was: Proposals, base: Columns, next: Columns, epoch: bool)
    requires AllOnward(was, base.proposals) && BlockSteps(base, next, epoch)
    ensures AllOnward(was, next.proposals) && FreshIds(next)
  {
    forall id | id in was
      ensures id in next.proposals && Onward(was[id], next.proposals[id])
    {
      assert PhaseStep(base.proposals[id], next.proposals[id]);
    }
  }

  lemma {:induction false} ChainOnward(genesis: Columns, blocks: seq<Block>, n: nat)
    requires n <= |blocks| && FreshIds(genesis)
    ensures FreshIds(Chain.After(genesis, blocks[..n])) && FreshIds(Chain.After(genesis, blocks))
    ensures AllOnward(Chain.After(genesis, blocks[..n]).proposals, Chain.After(genesis, blocks).proposals)
    decreases |blocks|, n
  {
    hide Next, BlockSteps, FreshIds;
    if n == |blocks| {
      assert blocks[..n] == blocks;
      if n > 0 {
        ChainOnward(genesis, blocks[..n - 1], n - 1);
        assert blocks[..n - 1][..n - 1] == blocks[..n - 1];
        var base := Chain.After(genesis, blocks[..n - 1]);
        NextSteps(base, blocks[n - 1]);
        BlockOnward(base.proposals, base, Next(base, blocks[n - 1]), IsEpochBoundary(blocks[n - 1].header.height));
      }
    } else {
      var earlier, block := blocks[..|blocks| - 1], blocks[|blocks| - 1];
      assert earlier[..n] == blocks[..n];
      ChainOnward(genesis, earlier, n);
      var base := Chain.After(genesis, earlier);
      NextSteps(base, block);
      BlockOnward(Chain.After(genesis, blocks[..n]).proposals, base, Next(base, block),
        IsEpochBoundary(block.header.height));
    }
  }

  // ----- Deposits -----

  /** Proposal `id` was resolved so that its deposit goes back. */
  predicate Returned(before: Proposals, after: Proposals, id: u64) {
    id in before && id in after && before[id].phase == Voting && after[id].phase in {Passed, Rejected}
  }

  /** The deposits of proposer `a` that go back, of the proposals `ids`. */
  function ReturnedTo(before: Proposals, after: Proposals, ids: set<u64>, a: Address): map<u64, nat> {
    map id | id in ids && Returned(before, after, id)
      && before[id].proposal.proposer == a :: before[id].proposal.deposit
  }

  lemma AdvanceOneCredits(base: Columns, book: GovBook, id: u64, now: u64, a: Address)
    requires id in base.proposals && id in book.proposals && book.proposals[id] == base.proposals[id]
    requires AdvanceOne(base, book, id, now).Some?
    ensures var after := AdvanceOne(base, book, id, now).value;
      && after.proposals.Keys == book.proposals.Keys
      && (forall i :: i in book.proposals && i != id ==> after.proposals[i] == book.proposals[i])
      && AccountAt(after.accounts, a) == Raised(AccountAt(book.accounts, a),
           if Returned(base.proposals, after.proposals, id) && base.proposals[id].proposal.proposer == a
           then base.proposals[id].proposal.deposit else 0)
  {
    hide Resolve;
    var record := base.proposals[id];
    ResolveSteps(base.votes, TotalBonded(base.stakes), book.accounts, id, record, now);
  }

  lemma ReturnedOneMore(before: Proposals, was: Proposals, after: Proposals, ids: set<u64>, id: u64, a: Address)
    requires id !in ids && after.Keys == was.Keys && forall i :: i in was && i != id ==> after[i] == was[i]
    ensures var counts := Returned(before, after, id) && before[id].proposal.proposer == a;
      ReturnedTo(before, after, ids + {id}, a) ==
        if counts then ReturnedTo(before, was, ids, a)[id := before[id].proposal.deposit]
          else ReturnedTo(before, was, ids, a)
  {
  }

  ghost function ReturnedSum(before: Proposals, after: Proposals, ids: set<u64>, a: Address): nat {
    Sum(ReturnedTo(before, after, ids, a), Whole)
  }

  function IdSet(ids: seq<u64>): set<u64> {
    set id | id in ids
  }

  lemma RaisedTwice(acct: Account, x: nat, y: nat)
    ensures Raised(Raised(acct, x), y) == Raised(acct, x + y) && Raised(acct, 0) == acct
  {
  }

  lemma CreditsStep(before: Proposals, start: Account, was: GovBook, after: GovBook, ids: set<u64>, id: u64, a: Address)
    requires id !in ids && id in before && after.proposals.Keys == was.proposals.Keys
    requires forall i :: i in was.proposals && i != id ==> after.proposals[i] == was.proposals[i]
    requires AccountAt(was.accounts, a) == Raised(start, ReturnedSum(before, was.proposals, ids, a))
    requires AccountAt(after.accounts, a) == Raised(AccountAt(was.accounts, a),
      if Returned(before, after.proposals, id) && before[id].proposal.proposer == a then before[id].proposal.deposit
        else 0)
    ensures AccountAt(after.accounts, a) == Raised(start, ReturnedSum(before, after.proposals, ids + {id}, a))
  {
    ReturnedOneMore(before, was.proposals, after.proposals, ids, id, a);
    var deposit: nat := before[id].proposal.deposit;
    RaisedTwice(start, ReturnedSum(before, was.proposals, ids, a), deposit);
    RaisedTwice(AccountAt(was.accounts, a), 0, 0);
    hide Returned, AccountAt, Raised;
    SumUpdate(ReturnedTo(before, was.proposals, ids, a), Whole, id, deposit);
  }

  lemma NothingReturned(before: Proposals, now: Proposals, start: Account, a: Address)
    ensures Raised(start, ReturnedSum(before, now, {}, a)) == start
  {
    assert ReturnedTo(before, now, {}, a) == map[];
  }

  /** Over one pass the balance of every account grows by exactly the deposits returned to it. */
  lemma {:induction false} PassCredits(base: Columns, book: GovBook, ids: seq<u64>, now: u64, a: Address)
    requires (forall id :: id in ids ==> id in base.proposals) && Advance(base, book, ids, now).Some?
    requires forall i, j :: 0 <= i < j < |ids| ==> ids[i] < ids[j]
    requires forall id :: id in base.proposals ==> id in book.proposals && book.proposals[id] == base.proposals[id]
    ensures var after := Advance(base, book, ids, now).value;
      AccountAt(after.accounts, a) ==
        Raised(AccountAt(book.accounts, a), ReturnedSum(base.proposals, after.proposals, IdSet(ids), a))
    decreases |ids|
  {
    hide AdvanceOne, Returned, AccountAt, ReturnedSum, Raised, PhaseStep;
    if ids == [] {
      assert IdSet(ids) == {};
      NothingReturned(base.proposals, book.proposals, AccountAt(book.accounts, a), a);
    } else {
      var earlier, id := ids[..|ids| - 1], ids[|ids| - 1];
      PassCredits(base, book, earlier, now, a);
      AdvanceSteps(base, book, earlier, now);
      var was := Advance(base, book, earlier, now).value;
      assert id !in earlier && IdSet(ids) == IdSet(earlier) + {id};
      AdvanceOneCredits(base, was, id, now, a);
      CreditsStep(base.proposals, AccountAt(book.accounts, a), was, Advance(base, book, ids, now).value, IdSet(earlier),
        id, a);
    }
  }

  /** Block `n` of the chain resolves proposal `id` in a way that returns its deposit. */
  ghost predicate ReturnsDeposit(genesis: Columns, blocks: seq<Block>, n: nat, id: u64)
    requires n < |blocks|
  {
    Returned(Chain.After(genesis, blocks[..n]).proposals, Chain.After(genesis, blocks[..n + 1]).proposals, id)
  }

  lemma GovView(c: Columns)
    ensures GovOf(c).accounts == c.accounts && GovOf(c).proposals == c.proposals
  {
  }

  lemma CreditsFrom(base: Columns, live: Columns, c: Columns, after: Columns, now: u64, a: Address)
    requires Extended(base, live) && SameGov(live, c)
    requires Advance(base, GovOf(c), IdsInOrder(base.proposals.Keys), now) == Some(GovOf(after))
    ensures AccountAt(after.accounts, a) ==
      Raised(AccountAt(c.accounts, a), ReturnedSum(base.proposals, after.proposals, base.proposals.Keys, a))
  {
    GovView(c);
    GovView(after);
    hide Advance, AccountAt, ReturnedSum, Raised, GovOf;
    var ids := IdsInOrder(base.proposals.Keys);
    PassCredits(base, GovOf(c), ids, now, a);
    assert IdSet(ids) == base.proposals.Keys;
  }

  /** At a boundary every account gains, over what it has after the mint, exactly the sum of
      its deposits that the block returns. */
  lemma BoundaryCredits(base: Columns, live: Columns, header: Header, a: Address)
    requires IsEpochBoundary(header.height) && Extended(base, live) && Rotated(base, live, header).Some?
    ensures AfterMint(base, live, header.height).Some?
    ensures var after := Rotated(base, live, header).value;
      AccountAt(after.accounts, a) == Raised(AccountAt(AfterMint(base, live, header.height).value.accounts, a),
        ReturnedSum(base.proposals, after.proposals, base.proposals.Keys, a))
  {
    PassStart(base, live, header);
    hide Advance, AfterMint, Rotated, AccountAt, ReturnedSum, Raised, GovOf, SameGov, Extended;
    CreditsFrom(base, live, AfterMint(base, live, header.height).value, Rotated(base, live, header).value,
      header.timestamp, a);
  }

  /** Over every chain a deposit is returned at most once. */
  lemma DepositReturnedOnce(genesis: Columns, blocks: seq<Block>, m: nat, n: nat, id: u64)
    requires FreshIds(genesis) && m < n < |blocks| && ReturnsDeposit(genesis, blocks, m, id)
    ensures !ReturnsDeposit(genesis, blocks, n, id)
  {
    assert blocks[..n][..m + 1] == blocks[..m + 1];
    ChainOnward(genesis, blocks[..n], m + 1);
  }

  // ----- Votes -----

  lemma StepVotes(base: Columns, live: Columns, stx: SignedTx)
    requires Apply(base, live, stx).outcome.Applied?
    ensures var after := Apply(base, live, stx).live;
      if stx.tx.Vote? then
        && VoteKey(stx.tx.proposalId, stx.tx.voter) !in base.votes
        && after.votes == live.votes[VoteKey(stx.tx.proposalId, stx.tx.voter) := stx.tx.choice]
      else after.votes == live.votes
  {
    if !stx.tx.Propose? && !stx.tx.Vote? {
      OthersKeepGov(base, live, stx);
    }
  }

  predicate VotesStand(before: Votes, after: Votes) {
    forall k :: k in before ==> k in after && after[k] == before[k]
  }

  lemma {:induction false} PassVotes(base: Columns, txs: seq<SignedTx>)
    requires RunAll(base, txs).Pass?
    ensures VotesStand(base.votes, RunAll(base, txs).live.votes)
  {
    if txs != [] {
      var pass, stx := RunAll(base, txs[..|txs| - 1]), txs[|txs| - 1];
      PassVotes(base, txs[..|txs| - 1]);
      hide Apply;
      if Apply(base, pass.live, stx).outcome.Applied? {
        StepVotes(base, pass.live, stx);
      } else {
        Replay.RejectedLeavesLedgerExactly(base, pass.live, stx);
      }
    }
  }

  /** Over every chain a committed vote is final, so each voter weighs in once per proposal. */
  lemma {:induction false} VotesAreFinal(genesis: Columns, blocks: seq<Block>)
    requires FreshIds(genesis)
    ensures VotesStand(genesis.votes, Chain.After(genesis, blocks).votes)
  {
    if blocks != [] {
      hide Rotated, SlashAll, RunAll, Extended;
      var earlier, block := blocks[..|blocks| - 1], blocks[|blocks| - 1];
      var base := Chain.After(genesis, earlier);
      VotesAreFinal(genesis, earlier);
      ChainOnward(genesis, earlier, 0);
      if Accepts(base, block) {
        var live := RunAll(base, block.txs).live;
        PassProposals(base, block.txs);
        PassVotes(base, block.txs);
        SlashesKeepGov(base, live, block.txs);
        var slashed := SlashAll(base, live, block.txs).value;
        ExtendedAfterSlash(base, live, slashed);
        RotatedSteps(base, slashed, block.header);
      }
    }
  }
}
