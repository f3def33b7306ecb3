/**
 What each transaction does to the ledger, as functions of two column sets: `base`,
 the state committed before the block, and `live`, what a commit would leave after the
 writes buffered so far. Accounts, stakes, unbondings, receipt marks, the unbonding
 counter and the height are read from `live`; escrows, proposals, votes, models, the
 proposal counter, the base fee and the validator set from `base`. Each handler is a
 function of just the live columns it may write, its book.
 */
module LedgerSpec {
  import opened Numeric
  import opened Types
  import Merkle

  const BASE_TRANSFER_GAS: u64 := 21_000
  const RECEIPT_ANCHOR_GAS_PER_RECEIPT: u64 := 20_000
  const DISPUTE_GAS: u64 := 100_000
  const ESCROW_LOCK_GAS: u64 := 50_000
  const ESCROW_SETTLE_GAS: u64 := 50_000
  const REWARD_MINT_GAS: u64 := 30_000
  const REGISTER_MODEL_GAS: u64 := 200_000
  const REGISTER_TEE_GAS: u64 := 200_000
  const REGISTER_GATEWAY_GAS: u64 := 100_000
  const UNREGISTER_GATEWAY_GAS: u64 := 50_000
  const GOV_PROPOSAL_GAS: u64 := 500_000
  const GOV_VOTE_GAS: u64 := 30_000
  const STAKE_OP_GAS: u64 := 50_000
  const ATOMS_PER_ARK: u128 := 1_000_000_000
  const MODEL_DEPOSIT: u128 := 10_000 * 1_000_000_000
  const PROPOSAL_DEPOSIT: u128 := 10_000 * 1_000_000_000
  const MIN_TEE_QUOTE_BYTES: nat := 128
  const MAX_TEE_QUOTE_BYTES: nat := 16 * 1024
  const MAX_GATEWAY_URL_LEN: nat := 512
  const HTTPS_PREFIX: seq<u8> := [0x68, 0x74, 0x74, 0x70, 0x73, 0x3A, 0x2F, 0x2F]
  const UNBONDING_PERIOD_BLOCKS: u64 := 1_209_600
  const REDELEGATE_COOLDOWN_BLOCKS: u64 := 86_400
  const BOOTSTRAP_MAX_BLOCKS: u64 := 6 * 30 * 86_400
  const BOOTSTRAP_VALIDATOR_TARGET: nat := 100
  const EPOCH_LENGTH_BLOCKS: u64 := 3_600
  const TEE_MULTIPLIER_NONE: u32 := 10_000
  const TEE_MULTIPLIER_TEE: u32 := 15_000
  const HTTP_MULTIPLIER_BPS: u32 := 10_000

  type Accounts = map<Address, Account>
  type Stakes = map<StakeKey, StakeEntry>
  type Escrows = map<JobId, EscrowEntry>

  datatype StakeBook = StakeBook(
    accounts: Accounts, stakes: Stakes, unbondings: map<UnbondKey, UnbondingEntry>, nextUnbondId: u64)

  datatype EscrowBook = EscrowBook(accounts: Accounts, escrows: Escrows, pendingRewards: map<JobId, PendingReward>)

  datatype ReceiptBook = ReceiptBook(receipts: map<JobId, u64>, pendingRewards: map<JobId, PendingReward>)

  datatype ModelBook = ModelBook(accounts: Accounts, models: map<string, Manifest>)

  datatype GovBook = GovBook(
    accounts: Accounts, proposals: map<u64, ProposalRecord>, votes: map<VoteKey, VoteChoice>, nextProposalId: u64)

  /** A book after a handler has run, and what the handler answered. */
  datatype Done<+B> = Done(book: B, outcome: Outcome)

  datatype Step = Step(live: Columns, outcome: Outcome)

  // ----- Account and stake columns -----

  function AccountAt(accounts: Accounts, a: Address): Account {
    if a in accounts then accounts[a] else ZERO_ACCOUNT
  }

  /** Writing an empty account removes it. */
  function PutAccount(accounts: Accounts, a: Address, acct: Account): Accounts {
    if acct.IsEmpty() then accounts - {a} else accounts[a := acct]
  }

  function Credit(accounts: Accounts, a: Address, amount: u128): Accounts {
    var acct := AccountAt(accounts, a);
    PutAccount(accounts, a, acct.(balance := SatAdd128(acct.balance, amount)))
  }

  function Debit(accounts: Accounts, a: Address, amount: u128): Accounts
    requires amount <= AccountAt(accounts, a).balance
  {
    var acct := AccountAt(accounts, a);
    PutAccount(accounts, a, acct.(balance := acct.balance - amount))
  }

  /** A debit that also uses up the account's current nonce. */
  function Spend(accounts: Accounts, a: Address, amount: u128): Accounts
    requires amount <= AccountAt(accounts, a).balance && AccountAt(accounts, a).nonce < U64_MAX
  {
    var acct := AccountAt(accounts, a);
    PutAccount(accounts, a, Account(acct.balance - amount, acct.nonce + 1))
  }

  function CreditIfPositive(accounts: Accounts, a: Address, amount: u128): Accounts {
    if amount > 0 then Credit(accounts, a, amount) else accounts
  }

  /** Writing a zero stake removes the entry. */
  function PutStake(stakes: Stakes, k: StakeKey, e: StakeEntry): Stakes {
    if e.amount == 0 then stakes - {k} else stakes[k := e]
  }

  /** Adds to a position, opening it at `height` if there is none. */
  function TopUp(stakes: Stakes, k: StakeKey, amount: u128, height: u64): Stakes {
    PutStake(stakes, k,
      if k in stakes then stakes[k].(amount := SatAdd128(stakes[k].amount, amount))
      else StakeEntry(amount, height))
  }

  function DrawDown(stakes: Stakes, k: StakeKey, amount: u128): Stakes
    requires k in stakes && amount <= stakes[k].amount
  {
    PutStake(stakes, k, stakes[k].(amount := stakes[k].amount - amount))
  }

  predicate InBootstrap(height: u64, activeValidators: nat) {
    height < BOOTSTRAP_MAX_BLOCKS && activeValidators % 0x1_0000_0000 < BOOTSTRAP_VALIDATOR_TARGET
  }

  function BaseMinStake(role: StakeRole): u128 {
    match role
    case Validator => 50_000 * ATOMS_PER_ARK
    case Router => 8_000 * ATOMS_PER_ARK
    case Verifier => 10_000 * ATOMS_PER_ARK
    case Compute => 5_000 * ATOMS_PER_ARK
  }

  // ----- Transfers -----

  function Transferred(baseFee: u128, accounts: Accounts, from: Address, to: Address, amount: u128, nonce: u64,
      fee: u64)
    : Done<Accounts>
  {
    if from == to then Done(accounts, Dropped(SelfTransfer))
    else if fee < BASE_TRANSFER_GAS then Done(accounts, Dropped(FeeTooLow(BASE_TRANSFER_GAS, fee)))
    else
      var sender := AccountAt(accounts, from);
      var feeCost := SatMul128(fee, baseFee);
      if sender.nonce != nonce then Done(accounts, Dropped(NonceMismatch(sender.nonce, nonce)))
      else if amount + feeCost > U128_MAX then Done(accounts, Dropped(InsufficientBalance(sender.balance, U128_MAX)))
      else if sender.balance < amount + feeCost then
        Done(accounts, Dropped(InsufficientBalance(sender.balance, amount + feeCost)))
      else if nonce == U64_MAX then Done(accounts, Panicked)
      else Done(Credit(Spend(accounts, from, amount + feeCost), to, amount), Applied(fee))
  }

  // ----- Stake operations -----

  /** A named delegator acts only for itself; self-stake names nobody. */
  predicate MayActFor(sender: Address, delegator: Option<Address>) {
    delegator == None || delegator == Some(sender)
  }

  function Holder(delegator: Option<Address>, sender: Address): Address {
    if delegator.Some? then delegator.value else sender
  }

  /** Whether a deposit would leave the position under the minimum for its role. */
  predicate BelowMinimum(bootstrap: bool, stakes: Stakes, key: StakeKey, amount: u128) {
    var held := if key in stakes then stakes[key].amount else 0;
    !bootstrap && SatAdd128(held, amount) < BaseMinStake(key.role)
  }

  function Deposited(bootstrap: bool, book: StakeBook, sender: Address, key: StakeKey, amount: u128, height: u64)
    : Done<StakeBook>
  {
    var acct := AccountAt(book.accounts, sender);
    if !MayActFor(sender, key.delegator) then Done(book, Dropped(ThirdPartyDelegation))
    else if BelowMinimum(bootstrap, book.stakes, key, amount) then
      Done(book, Dropped(NotYetImplemented("stake below minimum for this role")))
    else if acct.balance < amount then Done(book, Dropped(InsufficientBalance(acct.balance, amount)))
    else
      Done(book.(accounts := Debit(book.accounts, sender, amount), stakes := TopUp(book.stakes, key, amount, height)),
        Applied(STAKE_OP_GAS))
  }

  /** The position a withdrawal or redelegation by `sender` draws on: its own
      delegation if there is one, else the node's self-stake. */
  function SourceKey(stakes: Stakes, sender: Address, node: NodeId, role: StakeRole, pool: Option<PoolId>): StakeKey {
    var own := StakeKey(node, role, pool, Some(sender));
    if own in stakes then own else own.(delegator := None)
  }

  function Withdrawn(book: StakeBook, sender: Address, node: NodeId, role: StakeRole, pool: Option<PoolId>,
      amount: u128,
    height: u64): Done<StakeBook>
  {
    var key := SourceKey(book.stakes, sender, node, role, pool);
    if key !in book.stakes then Done(book, Dropped(StakeNotFound))
    else if amount > book.stakes[key].amount then Done(book, Dropped(StakeExceeded(amount, book.stakes[key].amount)))
    else if height + UNBONDING_PERIOD_BLOCKS > U64_MAX || book.nextUnbondId == U64_MAX then Done(book, Panicked)
    else
      var id := book.nextUnbondId;
      var unbonding := UnbondingEntry(role, pool, key.delegator, amount, height, height + UNBONDING_PERIOD_BLOCKS);
      Done(StakeBook(book.accounts, DrawDown(book.stakes, key, amount),
          book.unbondings[UnbondKey(node, id) := unbonding], id + 1),
        Applied(STAKE_OP_GAS))
  }

  function Completed(book: StakeBook, sender: Address, node: NodeId, id: u64, height: u64): Done<StakeBook> {
    var key := UnbondKey(node, id);
    if key !in book.unbondings then Done(book, Dropped(UnbondingNotFound))
    else
      var entry := book.unbondings[key];
      if !MayActFor(sender, entry.delegator) then Done(book, Dropped(UnbondingNotFound))
      else if height < entry.completesAt then Done(book, Dropped(UnbondingNotComplete(height, entry.completesAt)))
      else
        Done(book.(
            accounts := Credit(book.accounts, Holder(entry.delegator, sender), entry.amount),
            unbondings := book.unbondings - {key}),
          Applied(STAKE_OP_GAS))
  }

  function Redelegated(book: StakeBook, sender: Address, source: NodeId, target: NodeId, role: StakeRole, amount: u128,
    height: u64): Done<StakeBook>
  {
    var key := SourceKey(book.stakes, sender, source, role, None);
    if source == target then Done(book, Dropped(RedelegateSameNode))
    else if key !in book.stakes then Done(book, Dropped(StakeNotFound))
    else
      var src := book.stakes[key];
      var cooldownEnds := SatAdd64(src.bondedAt, REDELEGATE_COOLDOWN_BLOCKS);
      if amount > src.amount then Done(book, Dropped(StakeExceeded(amount, src.amount)))
      else if height < cooldownEnds then Done(book, Dropped(RedelegateCooldown(cooldownEnds - height)))
      else
        var drawn := DrawDown(book.stakes, key, amount);
        Done(book.(stakes := TopUp(drawn, key.(node := target), amount, height)), Applied(STAKE_OP_GAS))
  }

  function StakeOpApplied(bootstrap: bool, book: StakeBook, sender: Address, op: StakeOp,
      height: u64): Done<StakeBook> {
    match op
    case Deposit(node, role, pool, amount, delegator) =>
      Deposited(bootstrap, book, sender, StakeKey(node, role, pool, delegator), amount, height)
    case Withdraw(node, role, pool, amount) => Withdrawn(book, sender, node, role, pool, amount, height)
    case Complete(node, id) => Completed(book, sender, node, id, height)
    case Redelegate(source, target, role, amount) => Redelegated(book, sender, source, target, role, amount, height)
  }

  // ----- Receipts and disputes -----

  /** Marks until the first job already seen, which is returned. */
  function MarkReceipts(seen: map<JobId, u64>, receipts: seq<Receipt>, height: u64): (map<JobId, u64>, Option<JobId>)
    decreases |receipts|
  {
    if receipts == [] then (seen, None)
    else if receipts[0].job in seen then (seen, Some(receipts[0].job))
    else MarkReceipts(seen[receipts[0].job := height], receipts[1..], height)
  }

  function BootstrapReward(r: Receipt, epoch: u64): PendingReward {
    PendingReward(r.outputTokens, 0, epoch, OfNode(r.computeNode), OfTreasuryTag, OfNode(r.routerNode), OfTreasuryTag,
      if r.teeVerified then TEE_MULTIPLIER_TEE else TEE_MULTIPLIER_NONE, HTTP_MULTIPLIER_BPS)
  }

  function QueueRewards(pending: map<JobId, PendingReward>, receipts: seq<Receipt>, epoch: u64)
    : map<JobId, PendingReward>
    decreases |receipts|
  {
    if receipts == [] then pending
    else QueueRewards(pending[receipts[0].job := BootstrapReward(receipts[0], epoch)], receipts[1..], epoch)
  }

  function ReceiptLeaves(receipts: seq<Receipt>): seq<seq<u8>> {
    seq(|receipts|, i requires 0 <= i < |receipts| => receipts[i].encoding)
  }

  function AnchorGas(n: nat): u64 {
    Min(RECEIPT_ANCHOR_GAS_PER_RECEIPT * n, U64_MAX)
  }

  function Anchored(bootstrap: bool, book: ReceiptBook, batch: ReceiptBatch, height: u64): Done<ReceiptBook> {
    if batch.receipts == [] then Done(book, Dropped(EmptyReceiptBatch))
    else if Merkle.Root(ReceiptLeaves(batch.receipts)) != batch.merkleRoot then
      Done(book, Dropped(ReceiptMerkleMismatch))
    else
      var (marked, repeated) := MarkReceipts(book.receipts, batch.receipts, height);
      if repeated.Some? then Done(book.(receipts := marked), Dropped(ReceiptDoubleAnchor(repeated.value)))
      else
        var pending :=
          if bootstrap then QueueRewards(book.pendingRewards, batch.receipts, height / EPOCH_LENGTH_BLOCKS)
          else book.pendingRewards;
        Done(ReceiptBook(marked, pending), Applied(AnchorGas(|batch.receipts|)))
  }

  function Disputed(receipts: map<JobId, u64>, claim: DisputeClaim): Outcome {
    if claim.claimedHash == claim.reexecHash then Dropped(DisputeOutputMatches)
    else if claim.job !in receipts then Dropped(DisputeReceiptNotFound)
    else Applied(DISPUTE_GAS)
  }

  // ----- Escrow and rewards -----

  datatype RewardSplit = RewardSplit(compute: nat, verifier: nat, burned: nat, delegators: nat, treasury: int)

  function SplitOf(total: u128): RewardSplit {
    var compute, verifier, burned, delegators := total * 80 / 100, total * 7 / 100, total * 3 / 100, total * 5 / 100;
    RewardSplit(compute, verifier, burned, delegators, total - compute - verifier - burned - delegators)
  }

  /** The five parts are non-negative and add up to the whole. */
  lemma SplitAddsUp(total: u128)
    ensures var s := SplitOf(total);
      && 0 <= s.treasury <= total
      && s.compute + s.delegators <= total
      && s.compute + s.verifier + s.burned + s.delegators + s.treasury == total
  {
  }

  function SplitCredited(accounts: Accounts, total: u128, p: Payees): Accounts {
    SplitAddsUp(total);
    var s := SplitOf(total);
    var paidCompute := CreditIfPositive(accounts, p.compute, s.compute + s.delegators);
    var paidVerifier := CreditIfPositive(paidCompute, p.verifier, s.verifier);
    CreditIfPositive(paidVerifier, p.treasury, s.treasury)
  }

  predicate SplitOverflows(total: u128) {
    total * 80 > U128_MAX
  }

  function Locking(committed: Escrows, book: EscrowBook, user: Address, job: JobId, amount: u128, nonce: u64, fee: u64,
    height: u64): Done<EscrowBook>
  {
    var acct := AccountAt(book.accounts, user);
    var total := SatAdd128(amount, fee);
    if amount == 0 then Done(book, Dropped(NotYetImplemented("zero-amount escrow")))
    else if job in committed then Done(book, Dropped(ReceiptDoubleAnchor(job)))
    else if acct.nonce != nonce then Done(book, Dropped(NonceMismatch(acct.nonce, nonce)))
    else if acct.balance < total then Done(book, Dropped(InsufficientBalance(acct.balance, total)))
    else if nonce == U64_MAX then Done(book, Panicked)
    else
      Done(book.(
          accounts := Spend(book.accounts, user, total),
          escrows := book.escrows[job := EscrowEntry(job, user, amount, height, Locked)]),
        Applied(ESCROW_LOCK_GAS))
  }

  function SettledReward(amount: u128, p: Payees, height: u64): PendingReward {
    PendingReward(0, amount, height / EPOCH_LENGTH_BLOCKS,
      p.compute, p.verifier, p.router, p.treasury, TEE_MULTIPLIER_NONE, HTTP_MULTIPLIER_BPS)
  }

  function Settling(committed: Escrows, book: EscrowBook, job: JobId, p: Payees, height: u64): Done<EscrowBook> {
    if job !in committed then Done(book, Dropped(NotYetImplemented("escrow not found for settle")))
    else
      var entry := committed[job];
      if entry.state != Locked then Done(book, Dropped(NotYetImplemented("escrow not in Locked state")))
      else if SplitOverflows(entry.amount) then Done(book, Panicked)
      else
        Done(EscrowBook(
            SplitCredited(book.accounts, entry.amount, p),
            book.escrows[job := entry.(state := Settled)],
            book.pendingRewards[job := SettledReward(entry.amount, p, height)]),
          Applied(ESCROW_SETTLE_GAS))
  }

  function Minted(accounts: Accounts, total: u128, p: Payees): Done<Accounts> {
    if total == 0 then Done(accounts, Applied(REWARD_MINT_GAS))
    else if SplitOverflows(total) then Done(accounts, Panicked)
    else Done(SplitCredited(accounts, total, p), Applied(REWARD_MINT_GAS * 6))
  }

  // ----- Models and governance -----

  function ModelRegistered(committed: map<string, Manifest>, book: ModelBook, manifest: Manifest, registrar: Address,
    deposit: u128): Done<ModelBook>
  {
    var acct := AccountAt(book.accounts, registrar);
    if deposit < MODEL_DEPOSIT then Done(book, Dropped(FeeTooLow(MODEL_DEPOSIT, deposit)))
    else if manifest.modelId == "" then Done(book, Dropped(NotYetImplemented("empty model_id")))
    else if manifest.modelId in committed then Done(book, Dropped(NotYetImplemented("model already registered")))
    else if acct.balance < deposit then Done(book, Dropped(InsufficientBalance(acct.balance, deposit)))
    else
      Done(ModelBook(Debit(book.accounts, registrar, deposit), book.models[manifest.modelId := manifest]),
        Applied(REGISTER_MODEL_GAS))
  }

  function Proposed(committedId: u64, book: GovBook, sender: Address, proposal: Proposal, height: u64): Done<GovBook> {
    var acct := AccountAt(book.accounts, sender);
    if proposal.deposit < PROPOSAL_DEPOSIT then Done(book, Dropped(NotYetImplemented("deposit below minimum")))
    else if acct.balance < proposal.deposit then
      Done(book, Dropped(InsufficientBalance(acct.balance, proposal.deposit)))
    else if committedId == U64_MAX then Done(book, Panicked)
    else
      Done(GovBook(
          Debit(book.accounts, sender, proposal.deposit),
          book.proposals[committedId := ProposalRecord(proposal, Discussion, height)],
          book.votes,
          committedId + 1),
        Applied(GOV_PROPOSAL_GAS))
  }

  function Voted(proposals: map<u64, ProposalRecord>, committed: map<VoteKey, VoteChoice>, book: GovBook,
    id: u64, voter: Address, choice: VoteChoice): Done<GovBook>
  {
    if id !in proposals then Done(book, Dropped(NotYetImplemented("proposal not found")))
    else if proposals[id].phase != Voting then Done(book, Dropped(NotYetImplemented("proposal not in voting phase")))
    else if VoteKey(id, voter) in committed then Done(book, Dropped(NotYetImplemented("duplicate vote")))
    else Done(book.(votes := book.votes[VoteKey(id, voter) := choice]), Applied(GOV_VOTE_GAS))
  }

  // ----- Confidential compute nodes and gateways -----

  /** What is wrong with the shape of an attestation quote, if anything. */
  function QuoteFault(platform: TeePlatform, quote: seq<u8>): Option<string> {
    if |quote| < MIN_TEE_QUOTE_BYTES then Some("TEE quote too short")
    else if |quote| > MAX_TEE_QUOTE_BYTES then Some("TEE quote exceeds size limit")
    else
      match platform
      case IntelTdx =>
        if quote[0] != 4 || quote[1] != 0 then Some("Intel TDX quote: invalid version header") else None
      case AmdSevSnp =>
        if quote[0] != 2 && quote[0] != 3 then Some("AMD SEV-SNP report: invalid version byte") else None
      case ArmCca => None
  }

  function TeeRegistered(r: Registry, node: NodeId, c: TeeCapability): Done<Registry> {
    if c.quote == [] then Done(r, Dropped(NotYetImplemented("empty TEE attestation quote")))
    else
      match QuoteFault(c.platform, c.quote)
      case Some(fault) => Done(r, Dropped(NotYetImplemented(fault)))
      case None =>
        if c.scheme != Ed25519 then Done(r, Dropped(NotYetImplemented("enclave pubkey uses inactive scheme")))
        else Done(r.WithTee(node, c), Applied(REGISTER_TEE_GAS))
  }

  predicate IsHttps(url: seq<u8>) {
    HTTPS_PREFIX <= url
  }

  function GatewayRegistered(r: Registry, node: NodeId, operator: Address, url: seq<u8>, https: bool, height: u64)
    : Done<Registry>
  {
    if url == [] then Done(r, Dropped(NotYetImplemented("empty gateway URL")))
    else if |url| > MAX_GATEWAY_URL_LEN then Done(r, Dropped(NotYetImplemented("gateway URL too long")))
    else if https && !IsHttps(url) then
      Done(r, Dropped(NotYetImplemented("https flag set but URL does not start with https://")))
    else
      Done(r.WithGateway(node, Some(GatewayEntry(operator, url, https, height))), Applied(REGISTER_GATEWAY_GAS))
  }

  function GatewayRemoved(r: Registry, node: NodeId): Done<Registry> {
    Done(r.WithGateway(node, None), Applied(UNREGISTER_GATEWAY_GAS))
  }

  // ----- The dispatcher -----

  function StakesOf(c: Columns): StakeBook {
    StakeBook(c.accounts, c.stakes, c.unbondings, c.nextUnbondId)
  }

  function EscrowsOf(c: Columns): EscrowBook {
    EscrowBook(c.accounts, c.escrows, c.pendingRewards)
  }

  function ReceiptsOf(c: Columns): ReceiptBook {
    ReceiptBook(c.receipts, c.pendingRewards)
  }

  function ModelsOf(c: Columns): ModelBook {
    ModelBook(c.accounts, c.models)
  }

  function GovOf(c: Columns): GovBook {
    GovBook(c.accounts, c.proposals, c.votes, c.nextProposalId)
  }

  function WithStakes(c: Columns, b: StakeBook): Columns {
    c.(accounts := b.accounts, stakes := b.stakes, unbondings := b.unbondings, nextUnbondId := b.nextUnbondId)
  }

  function WithEscrows(c: Columns, b: EscrowBook): Columns {
    c.(accounts := b.accounts, escrows := b.escrows, pendingRewards := b.pendingRewards)
  }

  function WithReceipts(c: Columns, b: ReceiptBook): Columns {
    c.(receipts := b.receipts, pendingRewards := b.pendingRewards)
  }

  function WithModels(c: Columns, b: ModelBook): Columns {
    c.(accounts := b.accounts, models := b.models)
  }

  function WithGov(c: Columns, b: GovBook): Columns {
    c.(accounts := b.accounts, proposals := b.proposals, votes := b.votes, nextProposalId := b.nextProposalId)
  }

  function OnAccounts(live: Columns, d: Done<Accounts>): Step {
    Step(live.(accounts := d.book), d.outcome)
  }

  function OnStakes(live: Columns, d: Done<StakeBook>): Step {
    Step(WithStakes(live, d.book), d.outcome)
  }

  function OnEscrows(live: Columns, d: Done<EscrowBook>): Step {
    Step(WithEscrows(live, d.book), d.outcome)
  }

  function OnReceipts(live: Columns, d: Done<ReceiptBook>): Step {
    Step(WithReceipts(live, d.book), d.outcome)
  }

  function OnModels(live: Columns, d: Done<ModelBook>): Step {
    Step(WithModels(live, d.book), d.outcome)
  }

  function OnGov(live: Columns, d: Done<GovBook>): Step {
    Step(WithGov(live, d.book), d.outcome)
  }

  function OnRegistry(live: Columns, d: Done<Registry>): Step {
    Step(live.(registry := d.book), d.outcome)
  }

  function Apply(base: Columns, live: Columns, stx: SignedTx): Step {
    var h := live.height;
    var bootstrap := InBootstrap(h, |base.validators|);
    match stx.tx
    case Transfer(from, to, amount, nonce, fee) =>
      OnAccounts(live, Transferred(base.baseFee, live.accounts, from, to, amount, nonce, fee))
    case Stake(op) => OnStakes(live, StakeOpApplied(bootstrap, StakesOf(live), OfSigner(stx.signer), op, h))
    case AnchorReceipts(batch) => OnReceipts(live, Anchored(bootstrap, ReceiptsOf(live), batch, h))
    case RegisterModel(manifest, registrar, deposit) =>
      OnModels(live, ModelRegistered(base.models, ModelsOf(live), manifest, registrar, deposit))
    case Propose(proposal) => OnGov(live, Proposed(base.nextProposalId, GovOf(live), OfSigner(stx.signer), proposal, h))
    case Vote(id, voter, choice) => OnGov(live, Voted(base.proposals, base.votes, GovOf(live), id, voter, choice))
    case Dispute(claim) => Step(live, Disputed(live.receipts, claim))
    case EscrowLock(user, job, amount, nonce, fee) =>
      OnEscrows(live, Locking(base.escrows, EscrowsOf(live), user, job, amount, nonce, fee, h))
    case EscrowSettle(job, payees) => OnEscrows(live, Settling(base.escrows, EscrowsOf(live), job, payees, h))
    case RewardMint(_, total, payees) => OnAccounts(live, Minted(live.accounts, total, payees))
    case RegisterTee(node, _, capability) => OnRegistry(live, TeeRegistered(live.registry, node, capability))
    case RegisterGateway(node, operator, url, https) =>
      OnRegistry(live, GatewayRegistered(live.registry, node, operator, url, https, h))
    case UnregisterGateway(node, _) => OnRegistry(live, GatewayRemoved(live.registry, node))
  }

  /** Applying transactions in order: the final state, the gas of the applied ones
      and those ones themselves. */
  datatype Pass = Pass(live: Columns, gas: u64, kept: seq<SignedTx>) | Aborted

  function PassAfter(pass: Pass, base: Columns, stx: SignedTx): Pass {
    if pass.Aborted? then Aborted
    else
      var step := Apply(base, pass.live, stx);
      match step.outcome
      case Applied(g) => Pass(step.live, SatAdd64(pass.gas, g), pass.kept + [stx])
      case Dropped(_) => pass.(live := step.live)
      case Panicked => Aborted
  }

  function RunAll(base: Columns, txs: seq<SignedTx>): Pass {
    if txs == [] then Pass(base, 0, [])
    else PassAfter(RunAll(base, txs[..|txs| - 1]), base, txs[|txs| - 1])
  }

  lemma RunAllSnoc(base: Columns, txs: seq<SignedTx>, stx: SignedTx)
    ensures RunAll(base, txs + [stx]) == PassAfter(RunAll(base, txs), base, stx)
  {
    assert (txs + [stx])[..|txs|] == txs;
  }
}
