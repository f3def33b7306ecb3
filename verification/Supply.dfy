/**
 Where the tokens are, and what each transaction adds to or takes from the total.
 */
module Supply {
  import opened Numeric
  import opened MapSums
  import opened Types
  import opened LedgerSpec
  import opened Governance

  // ----- The total -----

  function Balance(a: Account): nat {
    a.balance
  }

  function Unbonded(e: UnbondingEntry): nat {
    e.amount
  }

  function LockedIn(e: EscrowEntry): nat {
    if e.state == Locked then e.amount else 0
  }

  function OpenDeposit(r: ProposalRecord): nat {
    if r.phase == Discussion || r.phase == Voting then r.proposal.deposit else 0
  }

  /** A vetoed deposit is never returned. */
  function Forfeit(r: ProposalRecord): nat {
    if r.phase == RejectedWithVeto then r.proposal.deposit else 0
  }

  /** Balances, stakes, unbondings, locked escrows and open deposits. */
  ghost function Total(c: Columns): nat {
    Sum(c.accounts, Balance) + Sum(c.stakes, Staked) + Sum(c.unbondings, Unbonded)
      + Sum(c.escrows, LockedIn) + Sum(c.proposals, OpenDeposit)
  }

  // ----- Accounts -----

  lemma PutSum(accounts: Accounts, a: Address, acct: Account)
    ensures Sum(PutAccount(accounts, a, acct), Balance) + AccountAt(accounts, a).balance ==
      Sum(accounts, Balance) + acct.balance
    ensures AccountAt(accounts, a).balance <= Sum(accounts, Balance)
  {
    SumDelete(accounts, Balance, a);
    SumUpdate(accounts, Balance, a, acct);
    SumAtLeast(accounts, Balance, a);
  }

  /** A credit adds exactly its amount, without clamping, when the amount fits. */
  lemma CreditSum(accounts: Accounts, a: Address, amount: u128)
    requires Sum(accounts, Balance) + amount <= U128_MAX
    ensures Sum(Credit(accounts, a, amount), Balance) == Sum(accounts, Balance) + amount
    ensures Sum(CreditIfPositive(accounts, a, amount), Balance) == Sum(accounts, Balance) + amount
  {
    var acct := AccountAt(accounts, a);
    PutSum(accounts, a, acct.(balance := SatAdd128(acct.balance, amount)));
  }

  lemma DebitSum(accounts: Accounts, a: Address, amount: u128)
    requires amount <= AccountAt(accounts, a).balance
    ensures Sum(Debit(accounts, a, amount), Balance) + amount == Sum(accounts, Balance)
  {
    var acct := AccountAt(accounts, a);
    PutSum(accounts, a, acct.(balance := acct.balance - amount));
  }

  lemma SpendSum(accounts: Accounts, a: Address, amount: u128)
    requires amount <= AccountAt(accounts, a).balance && AccountAt(accounts, a).nonce < U64_MAX
    ensures Sum(Spend(accounts, a, amount), Balance) + amount == Sum(accounts, Balance)
  {
    var acct := AccountAt(accounts, a);
    PutSum(accounts, a, Account(acct.balance - amount, acct.nonce + 1));
  }

  /** A reward split pays out everything but the burned part. */
  lemma SplitSum(accounts: Accounts, total: u128, p: Payees)
    requires Sum(accounts, Balance) + total <= U128_MAX
    ensures Sum(SplitCredited(accounts, total, p), Balance) + SplitOf(total).burned == Sum(accounts, Balance) + total
  {
    SplitAddsUp(total);
    hide CreditIfPositive, SplitOf;
    var s := SplitOf(total);
    var paidCompute := CreditIfPositive(accounts, p.compute, s.compute + s.delegators);
    var paidVerifier := CreditIfPositive(paidCompute, p.verifier, s.verifier);
    CreditSum(accounts, p.compute, s.compute + s.delegators);
    CreditSum(paidCompute, p.verifier, s.verifier);
    CreditSum(paidVerifier, p.treasury, s.treasury);
  }

  // ----- Stakes -----

  ghost function StakeWorth(b: StakeBook): nat {
    Sum(b.accounts, Balance) + Sum(b.stakes, Staked) + Sum(b.unbondings, Unbonded)
  }

  lemma PutStakeSum(stakes: Stakes, k: StakeKey, e: StakeEntry)
    ensures Sum(PutStake(stakes, k, e), Staked) + At(stakes, Staked, k) == Sum(stakes, Staked) + e.amount
    ensures At(stakes, Staked, k) <= Sum(stakes, Staked)
  {
    SumDelete(stakes, Staked, k);
    SumUpdate(stakes, Staked, k, e);
    SumAtLeast(stakes, Staked, k);
  }

  lemma TopUpSum(stakes: Stakes, k: StakeKey, amount: u128, height: u64)
    requires Sum(stakes, Staked) + amount <= U128_MAX
    ensures Sum(TopUp(stakes, k, amount, height), Staked) == Sum(stakes, Staked) + amount
  {
    PutStakeSum(stakes, k,
      if k in stakes then stakes[k].(amount := SatAdd128(stakes[k].amount, amount))
      else StakeEntry(amount, height));
  }

  lemma DrawDownSum(stakes: Stakes, k: StakeKey, amount: u128)
    requires k in stakes && amount <= stakes[k].amount
    ensures Sum(DrawDown(stakes, k, amount), Staked) + amount == Sum(stakes, Staked)
  {
    PutStakeSum(stakes, k, stakes[k].(amount := stakes[k].amount - amount));
  }

  predicate IdsBelow(unbondings: map<UnbondKey, UnbondingEntry>, next: nat) {
    forall k :: k in unbondings ==> k.id < next
  }

  lemma DepositedConserves(bootstrap: bool, b: StakeBook, sender: Address, key: StakeKey, amount: u128, height: u64)
    requires StakeWorth(b) <= U128_MAX
    ensures StakeWorth(Deposited(bootstrap, b, sender, key, amount, height).book) == StakeWorth(b)
  {
    hide Debit, TopUp, BelowMinimum, MayActFor;
    if amount <= AccountAt(b.accounts, sender).balance {
      DebitSum(b.accounts, sender, amount);
      TopUpSum(b.stakes, key, amount, height);
    }
  }

  lemma WithdrawnConserves(b: StakeBook, sender: Address, node: NodeId, role: StakeRole, pool: Option<PoolId>,
      amount: u128, height: u64)
    requires IdsBelow(b.unbondings, b.nextUnbondId)
    ensures StakeWorth(Withdrawn(b, sender, node, role, pool, amount, height).book) == StakeWorth(b)
  {
    hide DrawDown, SourceKey;
    var key := SourceKey(b.stakes, sender, node, role, pool);
    if key in b.stakes && amount <= b.stakes[key].amount && height + UNBONDING_PERIOD_BLOCKS <= U64_MAX {
      DrawDownSum(b.stakes, key, amount);
      SumUpdate(b.unbondings, Unbonded, UnbondKey(node, b.nextUnbondId),
        UnbondingEntry(role, pool, key.delegator, amount, height, height + UNBONDING_PERIOD_BLOCKS));
    }
  }

  lemma CompletedConserves(b: StakeBook, sender: Address, node: NodeId, id: u64, height: u64)
    requires StakeWorth(b) <= U128_MAX
    ensures StakeWorth(Completed(b, sender, node, id, height).book) == StakeWorth(b)
  {
    hide Credit, MayActFor;
    var key := UnbondKey(node, id);
    if key in b.unbondings {
      var e := b.unbondings[key];
      SumRemove(b.unbondings, Unbonded, key);
      CreditSum(b.accounts, Holder(e.delegator, sender), e.amount);
    }
  }

  lemma RedelegatedConserves(b: StakeBook, sender: Address, source: NodeId, target: NodeId, role: StakeRole,
      amount: u128, height: u64)
    requires StakeWorth(b) <= U128_MAX
    ensures StakeWorth(Redelegated(b, sender, source, target, role, amount, height).book) == StakeWorth(b)
  {
    hide DrawDown, TopUp, SourceKey;
    var key := SourceKey(b.stakes, sender, source, role, None);
    if key in b.stakes && amount <= b.stakes[key].amount {
      DrawDownSum(b.stakes, key, amount);
      TopUpSum(DrawDown(b.stakes, key, amount), key.(node := target), amount, height);
    }
  }

  /** Stake operations only move tokens between balances, stakes and unbondings. */
  lemma StakeOpConserves(bootstrap: bool, b: StakeBook, sender: Address, op: StakeOp, height: u64)
    requires StakeWorth(b) <= U128_MAX && IdsBelow(b.unbondings, b.nextUnbondId)
    ensures StakeWorth(StakeOpApplied(bootstrap, b, sender, op, height).book) == StakeWorth(b)
  {
    hide StakeWorth, Deposited, Withdrawn, Completed, Redelegated, IdsBelow;
    match op
    case Deposit(node, role, pool, amount, delegator) =>
      DepositedConserves(bootstrap, b, sender, StakeKey(node, role, pool, delegator), amount, height);
    case Withdraw(node, role, pool, amount) => WithdrawnConserves(b, sender, node, role, pool, amount, height);
    case Complete(node, id) => CompletedConserves(b, sender, node, id, height);
    case Redelegate(source, target, role, amount) => RedelegatedConserves(b, sender, source, target, role, amount,
      height);
  }

  // ----- Transfers, escrows, models, proposals -----

  lemma TransferredSum(baseFee: u128, accounts: Accounts, from: Address, to: Address, amount: u128, nonce: u64,
      fee: u64)
    requires Transferred(baseFee, accounts, from, to, amount, nonce, fee).outcome.Applied?
    requires Sum(accounts, Balance) <= U128_MAX
    ensures Sum(Transferred(baseFee, accounts, from, to, amount, nonce, fee).book, Balance) + SatMul128(fee, baseFee) ==
      Sum(accounts, Balance)
  {
    hide Spend, Credit;
    var total := amount + SatMul128(fee, baseFee);
    SpendSum(accounts, from, total);
    CreditSum(Spend(accounts, from, total), to, amount);
  }

  ghost function EscrowWorth(b: EscrowBook): nat {
    Sum(b.accounts, Balance) + Sum(b.escrows, LockedIn)
  }

  lemma LockingSum(committed: Escrows, b: EscrowBook, user: Address, job: JobId, amount: u128, nonce: u64, fee: u64,
      height: u64)
    requires Locking(committed, b, user, job, amount, nonce, fee, height).outcome.Applied?
    ensures EscrowWorth(Locking(committed, b, user, job, amount, nonce, fee, height).book)
      + (SatAdd128(amount, fee) - amount) + At(b.escrows, LockedIn, job) == EscrowWorth(b)
  {
    hide Spend;
    SpendSum(b.accounts, user, SatAdd128(amount, fee));
    SumUpdate(b.escrows, LockedIn, job, EscrowEntry(job, user, amount, height, Locked));
  }

  lemma SettlingSum(committed: Escrows, b: EscrowBook, job: JobId, p: Payees, height: u64)
    requires Settling(committed, b, job, p, height).outcome.Applied?
    requires EscrowWorth(b) + Max(committed[job].amount - At(b.escrows, LockedIn, job), 0) <= U128_MAX
    ensures EscrowWorth(Settling(committed, b, job, p, height).book) + SplitOf(committed[job].amount).burned
      + At(b.escrows, LockedIn, job) == EscrowWorth(b) + committed[job].amount
  {
    hide SplitCredited, SplitOf;
    SumAtLeast(b.escrows, LockedIn, job);
    SplitSum(b.accounts, committed[job].amount, p);
    SumUpdate(b.escrows, LockedIn, job, committed[job].(state := Settled));
  }

  ghost function GovWorth(b: GovBook): nat {
    Sum(b.accounts, Balance) + Sum(b.proposals, OpenDeposit)
  }

  lemma ProposedSum(id: u64, b: GovBook, sender: Address, proposal: Proposal, height: u64)
    requires Proposed(id, b, sender, proposal, height).outcome.Applied?
    ensures GovWorth(Proposed(id, b, sender, proposal, height).book) + At(b.proposals, OpenDeposit, id) == GovWorth(b)
  {
    hide Debit;
    DebitSum(b.accounts, sender, proposal.deposit);
    SumUpdate(b.proposals, OpenDeposit, id, ProposalRecord(proposal, Discussion, height));
  }

  // ----- One transaction -----

  /** What a transaction destroys: fees, model deposits and 3% of every reward. */
  function Burned(base: Columns, tx: Transaction): nat {
    match tx
    case Transfer(_, _, _, _, fee) => SatMul128(fee, base.baseFee)
    case RegisterModel(_, _, deposit) => deposit
    case EscrowLock(_, _, amount, _, fee) => SatAdd128(amount, fee) - amount
    case EscrowSettle(job, _) => if job in base.escrows then SplitOf(base.escrows[job].amount).burned else 0
    case RewardMint(_, total, _) => SplitOf(total).burned
    case _ => 0
  }

  function MintedBy(tx: Transaction): nat {
    if tx.RewardMint? then tx.total else 0
  }

  /** What goes wrong when a handler reads committed state that the block has already
      changed: a lock or a proposal overwrites an earlier one and its amount is lost; a
      settlement pays out an escrow that is no longer locked. */
  ghost function Gap(base: Columns, live: Columns, tx: Transaction): int {
    match tx
    case EscrowLock(_, job, _, _, _) => 0 - At(live.escrows, LockedIn, job)
    case EscrowSettle(job, _) =>
      (if job in base.escrows then base.escrows[job].amount else 0) - At(live.escrows, LockedIn, job)
    case Propose(_) => 0 - At(live.proposals, OpenDeposit, base.nextProposalId)
    case _ => 0
  }

  lemma TotalOfAccounts(live: Columns, d: Done<Accounts>)
    ensures OnAccounts(live, d).outcome == d.outcome
    ensures Total(OnAccounts(live, d).live) - Sum(d.book, Balance) == Total(live) - Sum(live.accounts, Balance)
  {
  }

  lemma TotalOfStakes(live: Columns, d: Done<StakeBook>)
    ensures OnStakes(live, d).outcome == d.outcome
    ensures Total(OnStakes(live, d).live) - StakeWorth(d.book) == Total(live) - StakeWorth(StakesOf(live))
    ensures StakeWorth(StakesOf(live)) <= Total(live)
  {
  }

  lemma TotalOfEscrows(live: Columns, d: Done<EscrowBook>)
    ensures OnEscrows(live, d).outcome == d.outcome
    ensures Total(OnEscrows(live, d).live) - EscrowWorth(d.book) == Total(live) - EscrowWorth(EscrowsOf(live))
    ensures EscrowWorth(EscrowsOf(live)) <= Total(live)
  {
  }

  lemma TotalOfGov(live: Columns, d: Done<GovBook>)
    ensures OnGov(live, d).outcome == d.outcome
    ensures Total(OnGov(live, d).live) - GovWorth(d.book) == Total(live) - GovWorth(GovOf(live))
    ensures GovWorth(GovOf(live)) <= Total(live)
  {
  }

  lemma TotalOfReceipts(live: Columns, d: Done<ReceiptBook>)
    ensures OnReceipts(live, d).outcome == d.outcome && Total(OnReceipts(live, d).live) == Total(live)
  {
  }

  lemma TotalOfRegistry(live: Columns, d: Done<Registry>)
    ensures OnRegistry(live, d).outcome == d.outcome && Total(OnRegistry(live, d).live) == Total(live)
  {
  }

  lemma TotalOfModels(live: Columns, d: Done<ModelBook>)
    ensures OnModels(live, d).outcome == d.outcome
    ensures Total(OnModels(live, d).live) - Sum(d.book.accounts, Balance) == Total(live) - Sum(live.accounts, Balance)
  {
  }

  lemma SettlingFound(committed: Escrows, b: EscrowBook, job: JobId, p: Payees, height: u64)
    requires Settling(committed, b, job, p, height).outcome.Applied?
    ensures job in committed && committed[job].state == Locked
  {
  }

  lemma EscrowStepTotal(base: Columns, live: Columns, stx: SignedTx)
    requires Apply(base, live, stx).outcome.Applied? && (stx.tx.EscrowLock? || stx.tx.EscrowSettle?)
    requires Total(live) + Max(Gap(base, live, stx.tx), 0) <= U128_MAX
    ensures Total(Apply(base, live, stx).live) + Burned(base, stx.tx) == Total(live) + Gap(base, live, stx.tx)
  {
    hide Total, EscrowWorth, SplitOf, OnEscrows, Settling, Locking, InBootstrap;
    var book, h := EscrowsOf(live), live.height;
    match stx.tx
    case EscrowLock(user, job, amount, nonce, fee) =>
      TotalOfEscrows(live, Locking(base.escrows, book, user, job, amount, nonce, fee, h));
      LockingSum(base.escrows, book, user, job, amount, nonce, fee, h);
    case EscrowSettle(job, p) =>
      TotalOfEscrows(live, Settling(base.escrows, book, job, p, h));
      SettlingFound(base.escrows, book, job, p, h);
      SettlingSum(base.escrows, book, job, p, h);
  }

  lemma MintedSum(accounts: Accounts, total: u128, p: Payees)
    requires Minted(accounts, total, p).outcome.Applied? && Sum(accounts, Balance) + total <= U128_MAX
    ensures Sum(Minted(accounts, total, p).book, Balance) + SplitOf(total).burned == Sum(accounts, Balance) + total
  {
    hide SplitCredited;
    SplitSum(accounts, total, p);
  }

  lemma RegisteredSum(committed: map<string, Manifest>, b: ModelBook, manifest: Manifest, registrar: Address,
      deposit: u128)
    requires ModelRegistered(committed, b, manifest, registrar, deposit).outcome.Applied?
    ensures Sum(ModelRegistered(committed, b, manifest, registrar, deposit).book.accounts, Balance) + deposit ==
      Sum(b.accounts, Balance)
  {
    hide Debit;
    DebitSum(b.accounts, registrar, deposit);
  }

  lemma VotedSum(base: Columns, b: GovBook, id: u64, voter: Address, choice: VoteChoice)
    ensures GovWorth(Voted(base.proposals, base.votes, b, id, voter, choice).book) == GovWorth(b)
  {
  }

  lemma AccountStepTotal(base: Columns, live: Columns, stx: SignedTx)
    requires Apply(base, live, stx).outcome.Applied?
      && (stx.tx.Transfer? || stx.tx.RewardMint? || stx.tx.RegisterModel?)
    requires Total(live) + MintedBy(stx.tx) <= U128_MAX
    ensures Total(Apply(base, live, stx).live) + Burned(base, stx.tx) == Total(live) + MintedBy(stx.tx)
  {
    hide SplitOf, OnAccounts, OnModels, Transferred, Minted, ModelRegistered, InBootstrap;
    var h := live.height;
    match stx.tx
    case Transfer(from, to, amount, nonce, fee) =>
      TotalOfAccounts(live, Transferred(base.baseFee, live.accounts, from, to, amount, nonce, fee));
      TransferredSum(base.baseFee, live.accounts, from, to, amount, nonce, fee);
    case RewardMint(_, total, p) =>
      TotalOfAccounts(live, Minted(live.accounts, total, p));
      MintedSum(live.accounts, total, p);
    case RegisterModel(manifest, registrar, deposit) =>
      TotalOfModels(live, ModelRegistered(base.models, ModelsOf(live), manifest, registrar, deposit));
      RegisteredSum(base.models, ModelsOf(live), manifest, registrar, deposit);
  }

  lemma RecordStepTotal(base: Columns, live: Columns, stx: SignedTx)
    requires Apply(base, live, stx).outcome.Applied?
    requires stx.tx.Propose? || stx.tx.Vote? || stx.tx.Dispute? || stx.tx.AnchorReceipts?
    ensures Total(Apply(base, live, stx).live) == Total(live) + Gap(base, live, stx.tx)
  {
    hide Total, GovWorth, OnGov, OnReceipts, Proposed, Voted, Anchored, Disputed, InBootstrap;
    var h := live.height;
    match stx.tx
    case Propose(proposal) =>
      TotalOfGov(live, Proposed(base.nextProposalId, GovOf(live), OfSigner(stx.signer), proposal, h));
      ProposedSum(base.nextProposalId, GovOf(live), OfSigner(stx.signer), proposal, h);
    case Vote(id, voter, choice) =>
      TotalOfGov(live, Voted(base.proposals, base.votes, GovOf(live), id, voter, choice));
      VotedSum(base, GovOf(live), id, voter, choice);
    case AnchorReceipts(batch) =>
      TotalOfReceipts(live, Anchored(InBootstrap(h, |base.validators|), ReceiptsOf(live), batch, h));
    case _ =>
  }

  lemma RegistryStepTotal(base: Columns, live: Columns, stx: SignedTx)
    requires stx.tx.RegisterTee? || stx.tx.RegisterGateway? || stx.tx.UnregisterGateway?
    ensures Total(Apply(base, live, stx).live) == Total(live)
  {
    hide Total, OnRegistry, TeeRegistered, GatewayRegistered, GatewayRemoved, InBootstrap;
    match stx.tx
    case RegisterTee(node, _, capability) => TotalOfRegistry(live, TeeRegistered(live.registry, node, capability));
    case RegisterGateway(node, operator, url, https) =>
      TotalOfRegistry(live, GatewayRegistered(live.registry, node, operator, url, https, live.height));
    case UnregisterGateway(node, _) => TotalOfRegistry(live, GatewayRemoved(live.registry, node));
  }

  lemma StakeStepTotal(base: Columns, live: Columns, stx: SignedTx)
    requires stx.tx.Stake? && Total(live) <= U128_MAX && IdsBelow(live.unbondings, live.nextUnbondId)
    ensures Total(Apply(base, live, stx).live) == Total(live)
  {
    hide Total, StakeWorth, OnStakes, StakeOpApplied, InBootstrap, IdsBelow;
    var bootstrap := InBootstrap(live.height, |base.validators|);
    var done := StakeOpApplied(bootstrap, StakesOf(live), OfSigner(stx.signer), stx.tx.op, live.height);
    TotalOfStakes(live, done);
    StakeOpConserves(bootstrap, StakesOf(live), OfSigner(stx.signer), stx.tx.op, live.height);
  }

  /** For every applied transaction: what the ledger holds afterwards, plus what is burned,
      is what it held before, plus what is minted, plus the gap left by stale reads. As this
      is an equation, no credit on the way has clamped. */
  lemma StepTotal(base: Columns, live: Columns, stx: SignedTx)
    requires Apply(base, live, stx).outcome.Applied? && IdsBelow(live.unbondings, live.nextUnbondId)
    requires Total(live) + MintedBy(stx.tx) + Max(Gap(base, live, stx.tx), 0) <= U128_MAX
    ensures Total(Apply(base, live, stx).live) + Burned(base, stx.tx) ==
      Total(live) + MintedBy(stx.tx) + Gap(base, live, stx.tx)
  {
    hide Total, Apply, IdsBelow, SplitOf;
    match stx.tx
    case Stake(_) => StakeStepTotal(base, live, stx);
    case EscrowLock(_, _, _, _, _) => EscrowStepTotal(base, live, stx);
    case EscrowSettle(_, _) => EscrowStepTotal(base, live, stx);
    case Transfer(_, _, _, _, _) => AccountStepTotal(base, live, stx);
    case RewardMint(_, _, _) => AccountStepTotal(base, live, stx);
    case RegisterModel(_, _, _) => AccountStepTotal(base, live, stx);
    case RegisterTee(_, _, _) => RegistryStepTotal(base, live, stx);
    case RegisterGateway(_, _, _, _) => RegistryStepTotal(base, live, stx);
    case UnregisterGateway(_, _) => RegistryStepTotal(base, live, stx);
    case _ => RecordStepTotal(base, live, stx);
  }
}
