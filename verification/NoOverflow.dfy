/**
 Blocks do not overflow: while the counters are short of their maxima, and what the ledger
 holds, scaled by the largest factor of any product, fits in 128 bits, no block aborts.
 */
module NoOverflow {
  import opened Numeric
  import opened MapSums
  import opened Types
  import opened LedgerSpec
  import opened KeyOrder
  import opened Governance
  import opened Blocks
  import opened Supply
  import opened Conservation
  import opened SlashSupply
  import opened ChainSupply
  import Delegators
  import Emission
  import Lifecycle
  import Nonces
  import Replay
  import Slashing
  import Unbondings
  import ValidatorSet

  // ----- Transactions -----

  /** The handlers' reasons to abort: a counter at its maximum or an amount too large to split. */
  predicate AtLimit(base: Columns, live: Columns, tx: Transaction) {
    match tx
    case Transfer(from, _, _, _, _) => Nonces.NonceOf(live.accounts, from) == U64_MAX
    case EscrowLock(user, _, _, _, _) => Nonces.NonceOf(live.accounts, user) == U64_MAX
    case Stake(op) => op.Withdraw? && (live.height + UNBONDING_PERIOD_BLOCKS > U64_MAX || live.nextUnbondId == U64_MAX)
    case Propose(_) => base.nextProposalId == U64_MAX
    case EscrowSettle(job, _) =>
      job in base.escrows && base.escrows[job].state == Locked && SplitOverflows(base.escrows[job].amount)
    case RewardMint(_, total, _) => SplitOverflows(total)
    case _ => false
  }

  lemma StepNeverAborts(base: Columns, live: Columns, stx: SignedTx)
    requires !AtLimit(base, live, stx.tx)
    ensures !Apply(base, live, stx).outcome.Panicked?
  {
    hide Spend, Credit, Debit, InBootstrap, SplitCredited, QuoteFault, TopUp, DrawDown, BelowMinimum;
    hide WithStakes, WithEscrows, WithModels, WithGov, WithReceipts;
  }

  /** The counters leave room for `n` more transactions. */
  predicate Room(base: Columns, n: nat) {
    && n <= U64_MAX && (forall a :: a in base.accounts ==> base.accounts[a].nonce + n <= U64_MAX)
    && base.nextUnbondId + n <= U64_MAX && base.nextProposalId < U64_MAX
    && base.height + UNBONDING_PERIOD_BLOCKS <= U64_MAX
  }

  /** Every amount a transaction names or pays out can be split. */
  predicate Splittable(base: Columns, tx: Transaction) {
    && (tx.RewardMint? ==> !SplitOverflows(tx.total))
    && (tx.EscrowSettle? && tx.job in base.escrows && base.escrows[tx.job].state == Locked ==>
          !SplitOverflows(base.escrows[tx.job].amount))
  }

  /** What a pass over `txs` leaves of the counters. */
  ghost predicate Counted(base: Columns, txs: seq<SignedTx>) {
    var pass := RunAll(base, txs);
    && pass.Pass? && |pass.kept| <= |txs| && pass.live.height == base.height
    && pass.live.nextUnbondId <= base.nextUnbondId + |txs|
  }

  lemma {:induction false} SpendsAtMost(txs: seq<SignedTx>, a: Address)
    ensures Nonces.Spends(txs, a) <= |txs|
  {
    if txs != [] {
      SpendsAtMost(txs[..|txs| - 1], a);
    }
  }

  lemma RoomAfter(base: Columns, txs: seq<SignedTx>, stx: SignedTx, n: nat)
    requires Counted(base, txs) && Room(base, n) && |txs| < n && Splittable(base, stx.tx)
    ensures !AtLimit(base, RunAll(base, txs).live, stx.tx)
  {
    hide RunAll;
    var pass := RunAll(base, txs);
    if stx.tx.Transfer? || stx.tx.EscrowLock? {
      var a := if stx.tx.Transfer? then stx.tx.from else stx.tx.user;
      Nonces.PassNonces(base, txs, a);
      SpendsAtMost(pass.kept, a);
    }
  }

  lemma CountedAfter(base: Columns, txs: seq<SignedTx>, stx: SignedTx)
    requires Counted(base, txs) && !Apply(base, RunAll(base, txs).live, stx).outcome.Panicked?
    ensures Counted(base, txs + [stx])
  {
    hide Apply;
    var live := RunAll(base, txs).live;
    RunAllSnoc(base, txs, stx);
    Unbondings.StepHeight(base, live, stx);
    if Apply(base, live, stx).outcome.Applied? {
      Unbondings.StepSteps(base, live, stx);
    } else {
      Replay.RejectedLeavesLedgerExactly(base, live, stx);
    }
  }

  lemma PassThere(base: Columns, txs: seq<SignedTx>)
    requires Counted(base, txs)
    ensures RunAll(base, txs).Pass?
  {
  }

  lemma {:induction false} RunNeverAborts(base: Columns, txs: seq<SignedTx>, n: nat)
    requires Room(base, n) && |txs| <= n && forall stx :: stx in txs ==> Splittable(base, stx.tx)
    ensures Counted(base, txs)
  {
    if txs != [] {
      hide AtLimit, Room, Splittable, Counted, Apply;
      var earlier, stx := txs[..|txs| - 1], txs[|txs| - 1];
      assert stx in txs && earlier + [stx] == txs;
      RunNeverAborts(base, earlier, n);
      RoomAfter(base, earlier, stx, n);
      PassThere(base, earlier);
      StepNeverAborts(base, RunAll(base, earlier).live, stx);
      CountedAfter(base, earlier, stx);
    } else {
      hide Room, Splittable;
    }
  }

  // ----- Slashes -----

  lemma OneProduct(amount: nat, worth: nat, o: Slashing.Offense)
    requires amount <= worth && worth * 100 <= U128_MAX
    ensures Slashing.Product(amount, o) <= U128_MAX
  {
  }

  lemma NoStakeOverflows(base: Columns, ch: Slashing.Charge)
    requires Sum(base.stakes, Staked) * 100 <= U128_MAX
    ensures !Slashing.StakeOverflows(base, {}, ch)
  {
    hide Slashing.Product;
    forall k | k in base.stakes
      ensures Slashing.Product(base.stakes[k].amount, ch.offense) <= U128_MAX
    {
      SumAtLeast(base.stakes, Staked, k);
      OneProduct(base.stakes[k].amount, Sum(base.stakes, Staked), ch.offense);
    }
  }

  lemma NoTrimOverflows(base: Columns, ch: Slashing.Charge)
    requires Sum(base.unbondings, Unbonded) * 100 <= U128_MAX
    ensures !Slashing.UnbondingOverflows(base, {}, ch)
  {
    hide Slashing.Product;
    forall k | k in base.unbondings
      ensures Slashing.Product(base.unbondings[k].amount, ch.offense) <= U128_MAX
    {
      SumAtLeast(base.unbondings, Unbonded, k);
      OneProduct(base.unbondings[k].amount, Sum(base.unbondings, Unbonded), ch.offense);
    }
  }

  /** No slash overflows while a hundred times what is staked and unbonding fits. */
  lemma SlashNeverOverflows(base: Columns, ch: Slashing.Charge)
    requires StakeWorth(StakesOf(base)) * 100 <= U128_MAX
    ensures !Slashing.SlashOverflows(base, ch)
  {
    NoStakeOverflows(base, ch);
    NoTrimOverflows(base, ch);
    hide Slashing.StakeOverflows, Slashing.UnbondingOverflows, Slashing.StakeCuts, Slashing.UnbondingCuts;
    CutsAreFit(base, ch);
    CutsBelow(base.stakes, Slashing.StakeCuts(base, ch));
    TrimsBelow(base.unbondings, Slashing.UnbondingCuts(base, ch));
    PartSum(base.stakes, Slashing.StakeCuts(base, ch), Staked);
    PartSum(base.unbondings, Slashing.UnbondingCuts(base, ch), Unbonded);
  }

  lemma {:induction false} SlashesNeverOverflow(base: Columns, live: Columns, txs: seq<SignedTx>)
    requires Total(base) * 100 <= U128_MAX
    ensures SlashAll(base, live, txs).Some?
  {
    if txs != [] {
      hide Total, StakeWorth, Slashing.SlashOverflows;
      SlashesNeverOverflow(base, live, txs[..|txs| - 1]);
      BaseWorth(base);
      if Accuses(txs[|txs| - 1].tx) {
        SlashNeverOverflows(base, ChargeOf(txs[|txs| - 1].tx.claim));
      }
    }
  }

  // ----- The mint -----

  lemma {:induction false} AmountsBelow(stakes: map<StakeKey, StakeEntry>, keys: seq<StakeKey>, amounts: seq<nat>)
    requires |amounts| == |keys| && forall i :: 0 <= i < |keys| ==>
      keys[i] in stakes && amounts[i] == stakes[keys[i]].amount
    requires forall i, j :: 0 <= i < j < |keys| ==> keys[i] != keys[j]
    ensures Delegators.SumOf(amounts) <= Sum(stakes, Staked)
    decreases |keys|
  {
    if keys != [] {
      var n := |keys| - 1;
      SumRemove(stakes, Staked, keys[n]);
      AmountsBelow(stakes - {keys[n]}, keys[..n], amounts[..n]);
    }
  }

  lemma DelegationsBelow(base: Columns, node: NodeId)
    ensures Delegators.SumOf(Delegators.Amounts(Delegators.Delegations(base, node))) <= Sum(base.stakes, Staked)
  {
    hide Delegators.Delegates, Delegators.SumOf;
    var keys := StakesInOrder(set k | k in base.stakes && Delegators.Delegates(k, node));
    forall i | 0 <= i < |keys|
      ensures keys[i] in base.stakes
    {
      assert keys[i] in keys;
    }
    AmountsBelow(base.stakes, keys, Delegators.Amounts(Delegators.Delegations(base, node)));
  }

  lemma BondedFits(base: Columns, compute: Address)
    ensures Delegators.SumOf(Delegators.Amounts(Delegators.Sharers(base, compute))) <= Sum(base.stakes, Staked)
  {
    hide Delegators.OperatedNode, Delegators.Delegations;
    var node := Delegators.OperatedNode(base, compute);
    if node.Some? {
      DelegationsBelow(base, node.value);
    } else {
      assert Delegators.Amounts([]) == [];
    }
  }

  lemma DistributionNeverOverflows(base: Columns, accounts: Accounts, compute: Address, total: u128)
    requires Sum(base.stakes, Staked) <= U128_MAX
    ensures Delegators.Distributed(base, accounts, compute, total).Some?
  {
    BondedFits(base, compute);
    hide Delegators.Sharers, Delegators.SharesOf, Delegators.CreditedAll;
  }

  lemma {:induction false} TokensFit(base: Columns, jobs: seq<JobId>)
    requires Emission.Queued(base, jobs)
    ensures Emission.TokensOf(base, jobs) <= |jobs| * U32_MAX
  {
    if jobs != [] {
      TokensFit(base, jobs[..|jobs| - 1]);
    }
  }

  lemma {:induction false} FewJobs(pending: map<JobId, PendingReward>, jobs: seq<JobId>)
    requires (forall j :: j in jobs ==> j in pending) && forall i, k :: 0 <= i < k < |jobs| ==> jobs[i] != jobs[k]
    ensures |jobs| <= |pending|
    decreases |jobs|
  {
    if jobs != [] {
      var n := |jobs| - 1;
      assert jobs[n] in pending && (pending - {jobs[n]}).Keys == pending.Keys - {jobs[n]};
      assert |pending| == |pending.Keys| && |pending - {jobs[n]}| == |(pending - {jobs[n]}).Keys|;
      FewJobs(pending - {jobs[n]}, jobs[..n]);
    }
  }

  lemma OneMintFits(base: Columns, b: Emission.MintBook, job: JobId, perToken: u128, budget: u128)
    requires job in base.pendingRewards && Emission.RewardOf(base.pendingRewards[job], perToken).Some?
    requires Sum(base.stakes, Staked) <= U128_MAX && budget * 80 <= U128_MAX
    requires b.minted <= budget
    ensures Emission.MintOne(base, b, job, perToken, budget).Some?
    ensures Emission.MintOne(base, b, job, perToken, budget).value.minted <= budget
  {
    hide Delegators.Distributed, Emission.RewardOf, Emission.PaidShares, SplitOf;
    var p := base.pendingRewards[job];
    var actual := Emission.Granted(Emission.RewardOf(p, perToken).value, budget, b.minted);
    SplitAddsUp(actual);
    DistributionNeverOverflows(base, Emission.PaidShares(b.accounts, p, actual), p.compute, SplitOf(actual).delegators);
  }

  lemma {:induction false} MintsFit(base: Columns, b: Emission.MintBook, jobs: seq<JobId>, perToken: u128, budget: u128)
    requires Emission.Queued(base, jobs)
    requires forall j :: j in jobs ==> Emission.RewardOf(base.pendingRewards[j], perToken).Some?
    requires Sum(base.stakes, Staked) <= U128_MAX && budget * 80 <= U128_MAX && b.minted <= budget
    ensures var r := Emission.MintMany(base, b, jobs, perToken, budget); r.Some? && r.value.minted <= budget
    decreases |jobs|
  {
    hide Emission.MintOne, Emission.RewardOf;
    if jobs != [] {
      MintsFit(base, b, jobs[..|jobs| - 1], perToken, budget);
      assert jobs[|jobs| - 1] in jobs;
      OneMintFits(base, Emission.MintMany(base, b, jobs[..|jobs| - 1], perToken, budget).value, jobs[|jobs| - 1],
        perToken, budget);
    }
  }

  /** No mint overflows in the years the schedule covers, with fewer queued rewards than 32 bits count. */
  lemma MintNeverOverflows(base: Columns, accounts: Accounts, pending: map<JobId, PendingReward>, height: u64)
    requires Emission.EpochBudget(height).Some? && |base.pendingRewards| <= U32_MAX
    requires Sum(base.stakes, Staked) <= U128_MAX
    ensures Emission.Mint(base, accounts, pending, height).Some?
  {
    hide Emission.RewardOf, Emission.TokensOf, Emission.Ending, Emission.MintMany, Emission.PerToken;
    var jobs, budget := Emission.Ending(base, height), Emission.EpochBudget(height).value;
    TokensFit(base, jobs);
    FewJobs(base.pendingRewards, jobs);
    assert |jobs| * U32_MAX <= U32_MAX * U32_MAX;
    var perToken := Emission.PerToken(budget, Emission.TokensOf(base, jobs));
    forall j | j in jobs
      ensures Emission.RewardOf(base.pendingRewards[j], perToken).Some?
    {
      Emission.RewardFits(base, jobs, j, height);
    }
    MintsFit(base, Emission.MintBook(accounts, pending, 0, 0), jobs, perToken, budget);
  }

  // ----- The governance pass -----

  function VotersIn(keys: set<VoteKey>, id: u64, accounts: Accounts): Accounts {
    map a | a in accounts && VoteKey(id, a) in keys :: accounts[a]
  }

  function Buckets(t: Tally): nat {
    t.yes + t.no + t.abstain + t.noWithVeto
  }

  lemma OneMoreVoter(keys: set<VoteKey>, id: u64, accounts: Accounts, k: VoteKey)
    requires k !in keys && k.proposal == id
    ensures Sum(VotersIn(keys + {k}, id, accounts), Balance) ==
      Sum(VotersIn(keys, id, accounts), Balance) + AccountAt(accounts, k.voter).balance
  {
    var before, after := VotersIn(keys, id, accounts), VotersIn(keys + {k}, id, accounts);
    if k.voter in accounts {
      assert after == before[k.voter := accounts[k.voter]];
      SumUpdate(before, Balance, k.voter, accounts[k.voter]);
    } else {
      assert after == before;
    }
  }

  /** Each voter weighs in once, so a tally counts at most all balances. */
  lemma {:induction false} TallyBelow(votes: Votes, keys: set<VoteKey>, id: u64, accounts: Accounts)
    requires forall k :: k in keys ==> k in votes && k.proposal == id
    ensures Buckets(TallyOver(votes, keys, id, accounts)) <= Sum(VotersIn(keys, id, accounts), Balance)
    decreases |keys|
  {
    hide TallyOver, VotersIn;
    if keys == {} {
      NoBallots(votes, id, accounts);
    } else {
      var k :| k in keys;
      TallyBelow(votes, keys - {k}, id, accounts);
      assert (keys - {k}) + {k} == keys;
      OneMoreVoter(keys - {k}, id, accounts, k);
      TallyStep(votes, keys - {k}, id, accounts, k);
    }
  }

  lemma VerdictNeverOverflows(votes: Votes, id: u64, accounts: Accounts, bonded: u128)
    requires Sum(accounts, Balance) * 10_000 <= U128_MAX
    ensures Evaluate(TallyOf(votes, id, accounts), bonded).Resolved?
  {
    var mine := set k | k in votes && k.proposal == id;
    TallyBelow(votes, mine, id, accounts);
    TallyIgnoresOthers(votes, id, accounts, mine);
    SubmapSum(VotersIn(mine, id, accounts), accounts, Balance);
    hide TallyOf, TallyOver;
    EvaluateExactly(TallyOf(votes, id, accounts), bonded);
  }

  lemma {:induction false} PassNeverOverflows(base: Columns, book: GovBook, ids: seq<u64>, now: u64)
    requires (forall id :: id in ids ==> id in base.proposals) && Ascending(ids)
    requires forall id :: id in base.proposals ==> id in book.proposals && book.proposals[id] == base.proposals[id]
    requires GovHeld(book) * 10_000 <= U128_MAX
    ensures Advance(base, book, ids, now).Some?
    decreases |ids|
  {
    hide Evaluate, TallyOf, TotalBonded;
    if ids != [] {
      var earlier, id := ids[..|ids| - 1], ids[|ids| - 1];
      PassNeverOverflows(base, book, earlier, now);
      AdvanceConserves(base, book, earlier, now);
      var before := Advance(base, book, earlier, now).value;
      VerdictNeverOverflows(base.votes, id, before.accounts, TotalBonded(base.stakes));
    }
  }

  // ----- Whole blocks -----

  /** The most one transaction can add to what the ledger holds, stale reads and its slash included. */
  ghost function Creates(base: Columns, tx: Transaction): nat {
    match tx
    case RewardMint(_, total, _) => total
    case EscrowSettle(job, _) => At(base.escrows, LockedIn, job)
    case Dispute(_) => Total(base)
    case _ => 0
  }

  ghost function CreatesIn(base: Columns, txs: seq<SignedTx>): nat {
    if txs == [] then 0 else CreatesIn(base, txs[..|txs| - 1]) + Creates(base, txs[|txs| - 1].tx)
  }

  ghost function CreatesByRunning(base: Columns, tx: Transaction): nat {
    if tx.Dispute? then 0 else Creates(base, tx)
  }

  ghost function RunCreates(base: Columns, txs: seq<SignedTx>): nat {
    if txs == [] then 0 else RunCreates(base, txs[..|txs| - 1]) + CreatesByRunning(base, txs[|txs| - 1].tx)
  }

  ghost function SlashesCreate(base: Columns, txs: seq<SignedTx>): nat {
    if txs == [] then 0
    else SlashesCreate(base, txs[..|txs| - 1]) + if txs[|txs| - 1].tx.Dispute? then Total(base) else 0
  }

  lemma {:induction false} CreatesSplits(base: Columns, txs: seq<SignedTx>)
    ensures CreatesIn(base, txs) == RunCreates(base, txs) + SlashesCreate(base, txs)
  {
    hide Total;
    if txs != [] {
      CreatesSplits(base, txs[..|txs| - 1]);
    }
  }

  lemma StepCreates(base: Columns, live: Columns, stx: SignedTx)
    requires Apply(base, live, stx).outcome.Applied?
    ensures MintedBy(stx.tx) + Max(Gap(base, live, stx.tx), 0) <= CreatesByRunning(base, stx.tx)
  {
    if stx.tx.EscrowSettle? {
      SettledIsCommitted(base, live, stx);
    }
    hide Apply;
  }

  lemma ExcessStep(base: Columns, txs: seq<SignedTx>)
    requires txs != [] && RunAll(base, txs).Pass?
    ensures var earlier, stx := txs[..|txs| - 1], txs[|txs| - 1];
      var pass, after := RunAll(base, earlier), RunAll(base, txs);
      && pass.Pass?
      && if Apply(base, pass.live, stx).outcome.Applied? then
           && after.kept == pass.kept + [stx]
           && ExcessIn(base, txs) == ExcessIn(base, earlier) + Max(Gap(base, pass.live, stx.tx), 0)
         else after.kept == pass.kept && ExcessIn(base, txs) == ExcessIn(base, earlier)
  {
    hide Apply, Gap;
  }

  lemma {:induction false} RunCreatesAtMost(base: Columns, txs: seq<SignedTx>)
    requires RunAll(base, txs).Pass?
    ensures MintedIn(RunAll(base, txs).kept) + ExcessIn(base, txs) <= RunCreates(base, txs)
  {
    if txs == [] {
      hide Apply, Gap;
    } else {
      hide Apply, Gap, CreatesByRunning, MintedBy, RunAll, ExcessIn, MintedIn;
      var earlier, stx := txs[..|txs| - 1], txs[|txs| - 1];
      ExcessStep(base, txs);
      var pass := RunAll(base, earlier);
      RunCreatesAtMost(base, earlier);
      SumsSnoc(base, pass.kept, stx);
      if Apply(base, pass.live, stx).outcome.Applied? {
        StepCreates(base, pass.live, stx);
      }
    }
  }

  lemma GapForAtMost(base: Columns, live: Columns, tx: Transaction)
    ensures Max(GapFor(base, live, tx), 0) <= if tx.Dispute? then Total(base) else 0
  {
    if Accuses(tx) {
      var ch := ChargeOf(tx.claim);
      hide Slashing.StakeCuts, Slashing.UnbondingCuts, CommittedAt;
      PartSum(base.stakes, Slashing.StakeCuts(base, ch), Staked);
      PartSum(base.unbondings, Slashing.UnbondingCuts(base, ch), Unbonded);
    }
  }

  lemma {:induction false} SlashesCreateAtMost(base: Columns, live: Columns, txs: seq<SignedTx>)
    ensures SlashExcess(base, live, txs) <= SlashesCreate(base, txs)
  {
    hide GapFor, Total, SlashFor;
    if txs != [] && SlashAll(base, live, txs).Some? {
      var earlier := txs[..|txs| - 1];
      SlashesCreateAtMost(base, live, earlier);
      GapForAtMost(base, SlashAll(base, live, earlier).value, txs[|txs| - 1].tx);
    }
  }

  lemma {:induction false} MintsInList(base: Columns, txs: seq<SignedTx>, stx: SignedTx)
    requires stx in txs
    ensures MintedBy(stx.tx) <= CreatesIn(base, txs)
  {
    if stx != txs[|txs| - 1] {
      MintsInList(base, txs[..|txs| - 1], stx);
    }
  }

  /** A ledger whose holdings, and whatever the block can add, stay below a ten-thousandth of
      the 128-bit range, and whose counters leave room for the block. */
  ghost predicate Sane(base: Columns, block: Block) {
    && Ready(base) && Unbondings.SoundPending(base.unbondings, base.nextUnbondId)
    && Room(base, |block.txs|)
    && (Holdings(base) + CreatesIn(base, block.txs) + EpochBound(block.header)) * 10_000 <= U128_MAX
    && (IsEpochBoundary(block.header.height) ==>
          Emission.EpochBudget(block.header.height).Some? && |base.pendingRewards| <= U32_MAX)
  }

  lemma SaneSplits(base: Columns, block: Block, stx: SignedTx)
    requires Sane(base, block) && stx in block.txs
    ensures Splittable(base, stx.tx)
  {
    hide Ready, Room, Unbondings.SoundPending;
    MintsInList(base, block.txs, stx);
    if stx.tx.EscrowSettle? {
      SumAtLeast(base.escrows, LockedIn, stx.tx.job);
    }
  }

  lemma TotalBelow(base: Columns)
    ensures Total(base) <= Holdings(base) && Sum(base.stakes, Staked) <= Total(base)
  {
  }

  lemma BookProposals(c: Columns)
    ensures GovOf(c).proposals == c.proposals && GovOf(c).accounts == c.accounts
  {
  }

  lemma BoundaryNeverOverflows(base: Columns, live: Columns, header: Header)
    requires Lifecycle.Extended(base, live) && Sum(base.stakes, Staked) <= U128_MAX
    requires IsEpochBoundary(header.height) ==>
      Emission.EpochBudget(header.height).Some? && |base.pendingRewards| <= U32_MAX
    requires (Holdings(live) + EpochBound(header)) * 10_000 <= U128_MAX
    ensures Rotated(base, live, header).Some?
  {
    hide Emission.Mint, Advance, Emission.EpochBudget, ValidatorSet.RotatedValidators, Emission.WithMint, WithRotation;
    hide WithGov, GovOf, Holdings, GovHeld;
    if IsEpochBoundary(header.height) {
      MintNeverOverflows(base, live.accounts, live.pendingRewards, header.height);
      MintConserves(base, live, header);
      var c := AfterMint(base, live, header.height).value;
      MintKeepsRest(live, ValidatorSet.RotatedValidators(base, live.validators, header.height),
        Emission.Mint(base, live.accounts, live.pendingRewards, header.height).value);
      HoldingsOfGov(c, GovOf(c));
      BookProposals(live);
      PassNeverOverflows(base, GovOf(c), IdsInOrder(base.proposals.Keys), header.timestamp);
    }
  }

  /** No block aborts a sane ledger: transactions, slashes and boundary work all go through. */
  lemma BlockNeverOverflows(base: Columns, block: Block)
    requires Sane(base, block)
    ensures Replayed(base, block).Some?
  {
    forall stx | stx in block.txs
      ensures Splittable(base, stx.tx)
    {
      SaneSplits(base, block, stx);
    }
    hide RunAll, SlashAll, Rotated, Sealed, Splittable, Room, Total, Holdings, CreatesIn, RunCreates, SlashesCreate;
    hide MintedIn, ExcessIn, SlashExcess, BurnedIn, GapsIn, SlashGaps, SlashBurnedIn, Ready, EpochBound;
    hide Unbondings.SoundPending, Lifecycle.Extended, IdsBelow, Emission.EpochBudget;
    var txs := block.txs;
    TotalBelow(base);
    RunNeverAborts(base, txs, |txs|);
    PassThere(base, txs);
    var live := RunAll(base, txs).live;
    SlashesNeverOverflow(base, live, txs);
    RunCreatesAtMost(base, txs);
    SlashesCreateAtMost(base, live, txs);
    CreatesSplits(base, txs);
    SlashedBlock(base, txs);
    BoundaryNeverOverflows(base, SlashAll(base, live, txs).value, block.header);
  }
}
