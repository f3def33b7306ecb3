/**
 The transaction handlers, run on the block context, and their dispatcher `ApplyTx`,
 each shown to do what `LedgerSpec` says.
 */
module TxApply {
  import opened Numeric
  import opened Types
  import opened LedgerSpec
  import opened Store
  import Merkle
  import StakeApply

  method ApplyTransfer(ctx: BlockCtx, from: Address, to: Address, amount: u128, nonce: u64,
      fee: u64) returns (out: Outcome)
    requires ctx.Valid()
    modifies ctx
    ensures ctx.Valid()
    ensures Step(ctx.live, out) ==
      OnAccounts(old(ctx.live), Transferred(ctx.state.db.baseFee, old(ctx.live).accounts, from, to, amount, nonce, fee))
  {
    hide BlockCtx.Valid;
    if from == to {
      return Dropped(SelfTransfer);
    }
    if fee < BASE_TRANSFER_GAS {
      return Dropped(FeeTooLow(BASE_TRANSFER_GAS, fee));
    }
    var fromAcct := ctx.GetAccount(from).GetOr(ZERO_ACCOUNT);
    if fromAcct.nonce != nonce {
      return Dropped(NonceMismatch(fromAcct.nonce, nonce));
    }
    var feeCost := SatMul128(fee, ctx.state.db.baseFee);
    if amount + feeCost > U128_MAX {
      return Dropped(InsufficientBalance(fromAcct.balance, U128_MAX));
    }
    var total := amount + feeCost;
    if fromAcct.balance < total {
      return Dropped(InsufficientBalance(fromAcct.balance, total));
    }
    var overflow := ctx.SpendFrom(from, fromAcct, total);
    if overflow {
      return Panicked;
    }
    ctx.CreditAccount(to, amount);
    out := Applied(fee);
  }

  method MarkBatch(ctx: BlockCtx, receipts: seq<Receipt>, height: u64) returns (repeated: Option<JobId>)
    requires ctx.Valid()
    modifies ctx
    ensures ctx.Valid()
    ensures var m := MarkReceipts(old(ctx.live).receipts, receipts, height);
      repeated == m.1 && ctx.live == old(ctx.live).(receipts := m.0)
  {
    hide BlockCtx.Valid;
    for i := 0 to |receipts|
      invariant ctx.Valid()
      invariant ctx.live == old(ctx.live).(receipts := ctx.live.receipts)
      invariant MarkReceipts(ctx.live.receipts, receipts[i..], height) ==
        MarkReceipts(old(ctx.live).receipts, receipts, height)
    {
      var r := receipts[i];
      assert receipts[i..][0] == r && receipts[i..][1..] == receipts[i + 1..];
      var seen := ctx.IsReceiptSeen(r.job);
      if seen {
        return Some(r.job);
      }
      ctx.MarkReceiptSeen(r.job, height);
    }
    repeated := None;
  }

  method QueueBatch(ctx: BlockCtx, receipts: seq<Receipt>, epoch: u64)
    requires ctx.Valid()
    modifies ctx
    ensures ctx.Valid()
    ensures ctx.live == old(ctx.live).(pendingRewards := QueueRewards(old(ctx.live).pendingRewards, receipts, epoch))
  {
    hide BlockCtx.Valid;
    for i := 0 to |receipts|
      invariant ctx.Valid()
      invariant ctx.live == old(ctx.live).(pendingRewards := ctx.live.pendingRewards)
      invariant QueueRewards(ctx.live.pendingRewards, receipts[i..], epoch) ==
        QueueRewards(old(ctx.live).pendingRewards, receipts, epoch)
    {
      var r := receipts[i];
      assert receipts[i..][0] == r && receipts[i..][1..] == receipts[i + 1..];
      ctx.Put(WritePendingReward(r.job, Some(BootstrapReward(r, epoch))));
    }
  }

  method ApplyReceiptBatch(ctx: BlockCtx, b: ReceiptBatch, height: u64) returns (out: Outcome)
    requires ctx.Valid() && height == ctx.live.height
    modifies ctx
    ensures ctx.Valid()
    ensures Step(ctx.live, out) == OnReceipts(old(ctx.live),
      Anchored(InBootstrap(height, |ctx.state.db.validators|), ReceiptsOf(old(ctx.live)), b, height))
  {
    hide BlockCtx.Valid;
    if b.receipts == [] {
      return Dropped(EmptyReceiptBatch);
    }
    var built := Merkle.NewTree(ReceiptLeaves(b.receipts));
    var recomputed := Merkle.TreeRoot(built.value);
    if recomputed != b.merkleRoot {
      return Dropped(ReceiptMerkleMismatch);
    }
    var repeated := MarkBatch(ctx, b.receipts, height);
    if repeated.Some? {
      return Dropped(ReceiptDoubleAnchor(repeated.value));
    }
    if InBootstrap(height, |ctx.state.db.validators|) {
      QueueBatch(ctx, b.receipts, height / EPOCH_LENGTH_BLOCKS);
    }
    out := Applied(AnchorGas(|b.receipts|));
  }

  method ApplyDispute(ctx: BlockCtx, claim: DisputeClaim) returns (out: Outcome)
    requires ctx.Valid()
    ensures out == Disputed(ctx.live.receipts, claim)
  {
    hide BlockCtx.Valid;
    if claim.claimedHash == claim.reexecHash {
      return Dropped(DisputeOutputMatches);
    }
    var seen := ctx.IsReceiptSeen(claim.job);
    if !seen {
      return Dropped(DisputeReceiptNotFound);
    }
    out := Applied(DISPUTE_GAS);
  }

  method CreditRewardSplit(ctx: BlockCtx, total: u128, p: Payees) returns (overflow: bool)
    requires ctx.Valid()
    modifies ctx
    ensures ctx.Valid()
    ensures overflow == SplitOverflows(total)
    ensures !overflow ==> ctx.live == old(ctx.live).(accounts := SplitCredited(old(ctx.live).accounts, total, p))
  {
    hide BlockCtx.Valid;
    if total * 80 > U128_MAX {
      return true;
    }
    SplitAddsUp(total);
    var compute := total * 80 / 100;
    var verifier := total * 7 / 100;
    var burned := total * 3 / 100;
    var delegators := total * 5 / 100;
    var treasury := total - compute - verifier - burned - delegators;
    var computeTotal := compute + delegators;
    ctx.CreditLine(p.compute, computeTotal);
    ctx.CreditLine(p.verifier, verifier);
    ctx.CreditLine(p.treasury, treasury);
    overflow := false;
  }

  method ApplyEscrowLock(ctx: BlockCtx, user: Address, job: JobId, amount: u128, nonce: u64, fee: u64, height: u64)
    returns (out: Outcome)
    requires ctx.Valid() && height == ctx.live.height
    modifies ctx
    ensures ctx.Valid()
    ensures Step(ctx.live, out) ==
      OnEscrows(old(ctx.live),
        Locking(ctx.state.db.escrows, EscrowsOf(old(ctx.live)), user, job, amount, nonce, fee, height))
  {
    hide BlockCtx.Valid, AccountAt, Spend;
    if amount == 0 {
      return Dropped(NotYetImplemented("zero-amount escrow"));
    }
    var existing := ctx.GetEscrow(job);
    if existing.Some? {
      return Dropped(ReceiptDoubleAnchor(job));
    }
    var acct := ctx.GetAccount(user).GetOr(ZERO_ACCOUNT);
    if acct.nonce != nonce {
      return Dropped(NonceMismatch(acct.nonce, nonce));
    }
    var total := SatAdd128(amount, fee);
    if acct.balance < total {
      return Dropped(InsufficientBalance(acct.balance, total));
    }
    var overflow := ctx.SpendFrom(user, acct, total);
    if overflow {
      return Panicked;
    }
    ctx.Put(WriteEscrow(job, Some(EscrowEntry(job, user, amount, height, Locked))));
    out := Applied(ESCROW_LOCK_GAS);
  }

  method ApplyEscrowSettle(ctx: BlockCtx, job: JobId, p: Payees, height: u64) returns (out: Outcome)
    requires ctx.Valid() && height == ctx.live.height
    modifies ctx
    ensures ctx.Valid()
    ensures Does(ctx.live, out,
      OnEscrows(old(ctx.live), Settling(ctx.state.db.escrows, EscrowsOf(old(ctx.live)), job, p, height)))
  {
    hide BlockCtx.Valid, SplitCredited;
    var found := ctx.GetEscrow(job);
    if found.None? {
      return Dropped(NotYetImplemented("escrow not found for settle"));
    }
    var entry := found.value;
    if entry.state != Locked {
      return Dropped(NotYetImplemented("escrow not in Locked state"));
    }
    var overflow := CreditRewardSplit(ctx, entry.amount, p);
    if overflow {
      return Panicked;
    }
    ctx.Put(WritePendingReward(job, Some(SettledReward(entry.amount, p, height))));
    ctx.Put(WriteEscrow(job, Some(entry.(state := Settled))));
    out := Applied(ESCROW_SETTLE_GAS);
  }

  method ApplyRewardMint(ctx: BlockCtx, total: u128, p: Payees) returns (out: Outcome)
    requires ctx.Valid()
    modifies ctx
    ensures ctx.Valid()
    ensures Does(ctx.live, out, OnAccounts(old(ctx.live), Minted(old(ctx.live).accounts, total, p)))
  {
    hide BlockCtx.Valid;
    if total == 0 {
      return Applied(REWARD_MINT_GAS);
    }
    var overflow := CreditRewardSplit(ctx, total, p);
    if overflow {
      return Panicked;
    }
    out := Applied(REWARD_MINT_GAS * 6);
  }

  method ApplyRegisterModel(ctx: BlockCtx, manifest: Manifest, registrar: Address, deposit: u128) returns (out: Outcome)
    requires ctx.Valid()
    modifies ctx
    ensures ctx.Valid()
    ensures Step(ctx.live, out) ==
      OnModels(old(ctx.live),
        ModelRegistered(ctx.state.db.models, ModelsOf(old(ctx.live)), manifest, registrar, deposit))
  {
    hide BlockCtx.Valid;
    if deposit < MODEL_DEPOSIT {
      return Dropped(FeeTooLow(MODEL_DEPOSIT, deposit));
    }
    if manifest.modelId == "" {
      return Dropped(NotYetImplemented("empty model_id"));
    }
    var existing := ctx.GetModel(manifest.modelId);
    if existing.Some? {
      return Dropped(NotYetImplemented("model already registered"));
    }
    var acct := ctx.GetAccount(registrar).GetOr(ZERO_ACCOUNT);
    if acct.balance < deposit {
      return Dropped(InsufficientBalance(acct.balance, deposit));
    }
    ctx.DebitAccount(registrar, acct, deposit);
    ctx.Put(WriteModel(manifest.modelId, manifest));
    out := Applied(REGISTER_MODEL_GAS);
  }

  method ApplyGovProposal(ctx: BlockCtx, signer: PubKey, proposal: Proposal, height: u64) returns (out: Outcome)
    requires ctx.Valid() && height == ctx.live.height
    modifies ctx
    ensures ctx.Valid()
    ensures Does(ctx.live, out,
      OnGov(old(ctx.live), Proposed(ctx.state.db.nextProposalId, GovOf(old(ctx.live)), OfSigner(signer), proposal,
        height)))
  {
    hide BlockCtx.Valid, AccountAt, Debit;
    var sender := OfSigner(signer);
    if proposal.deposit < PROPOSAL_DEPOSIT {
      return Dropped(NotYetImplemented("deposit below minimum"));
    }
    var acct := ctx.GetAccount(sender).GetOr(ZERO_ACCOUNT);
    if acct.balance < proposal.deposit {
      return Dropped(InsufficientBalance(acct.balance, proposal.deposit));
    }
    ctx.DebitAccount(sender, acct, proposal.deposit);
    var id := ctx.state.db.nextProposalId;
    ctx.Put(WriteProposal(id, ProposalRecord(proposal, Discussion, height)));
    if id == U64_MAX {
      return Panicked;
    }
    ctx.Put(WriteNextProposalId(id + 1));
    out := Applied(GOV_PROPOSAL_GAS);
  }

  method ApplyGovVote(ctx: BlockCtx, id: u64, voter: Address, choice: VoteChoice) returns (out: Outcome)
    requires ctx.Valid()
    modifies ctx
    ensures ctx.Valid()
    ensures Step(ctx.live, out) ==
      OnGov(old(ctx.live), Voted(ctx.state.db.proposals, ctx.state.db.votes, GovOf(old(ctx.live)), id, voter, choice))
  {
    hide BlockCtx.Valid;
    var record := ctx.GetProposal(id);
    if record.None? {
      return Dropped(NotYetImplemented("proposal not found"));
    }
    if record.value.phase != Voting {
      return Dropped(NotYetImplemented("proposal not in voting phase"));
    }
    var key := VoteKey(id, voter);
    var existing := ctx.GetVote(key);
    if existing.Some? {
      return Dropped(NotYetImplemented("duplicate vote"));
    }
    ctx.Put(WriteVote(key, choice));
    out := Applied(GOV_VOTE_GAS);
  }

  method ApplyRegisterTee(ctx: BlockCtx, node: NodeId, capability: TeeCapability) returns (out: Outcome)
    requires ctx.Valid()
    modifies ctx
    ensures ctx.Valid()
    ensures Step(ctx.live, out) == OnRegistry(old(ctx.live), TeeRegistered(old(ctx.live).registry, node, capability))
  {
    hide BlockCtx.Valid, QuoteFault, Registry.WithTee;
    if capability.quote == [] {
      return Dropped(NotYetImplemented("empty TEE attestation quote"));
    }
    var fault := QuoteFault(capability.platform, capability.quote);
    if fault.Some? {
      return Dropped(NotYetImplemented(fault.value));
    }
    if capability.scheme != Ed25519 {
      return Dropped(NotYetImplemented("enclave pubkey uses inactive scheme"));
    }
    ctx.Put(WriteTee(node, capability));
    out := Applied(REGISTER_TEE_GAS);
  }

  method ApplyRegisterGateway(ctx: BlockCtx, node: NodeId, operator: Address, url: seq<u8>, https: bool, height: u64)
    returns (out: Outcome)
    requires ctx.Valid() && height == ctx.live.height
    modifies ctx
    ensures ctx.Valid()
    ensures Step(ctx.live, out) ==
      OnRegistry(old(ctx.live), GatewayRegistered(old(ctx.live).registry, node, operator, url, https, height))
  {
    hide BlockCtx.Valid, IsHttps, Registry.WithGateway;
    if url == [] {
      return Dropped(NotYetImplemented("empty gateway URL"));
    }
    if |url| > MAX_GATEWAY_URL_LEN {
      return Dropped(NotYetImplemented("gateway URL too long"));
    }
    if https && !IsHttps(url) {
      return Dropped(NotYetImplemented("https flag set but URL does not start with https://"));
    }
    ctx.Put(WriteGateway(node, Some(GatewayEntry(operator, url, https, height))));
    out := Applied(REGISTER_GATEWAY_GAS);
  }

  method ApplyUnregisterGateway(ctx: BlockCtx, node: NodeId) returns (out: Outcome)
    requires ctx.Valid()
    modifies ctx
    ensures ctx.Valid()
    ensures Step(ctx.live, out) == OnRegistry(old(ctx.live), GatewayRemoved(old(ctx.live).registry, node))
  {
    hide BlockCtx.Valid, Registry.WithGateway;
    ctx.Put(WriteGateway(node, None));
    out := Applied(UNREGISTER_GATEWAY_GAS);
  }

  /** Applies one transaction to the buffered block. */
  method ApplyTx(ctx: BlockCtx, stx: SignedTx) returns (out: Outcome)
    requires ctx.Valid()
    modifies ctx
    ensures ctx.Valid()
    ensures Does(ctx.live, out, Apply(ctx.state.db, old(ctx.live), stx))
  {
    hide BlockCtx.Valid, InBootstrap, StakesOf, EscrowsOf, ReceiptsOf, ModelsOf, GovOf;
    hide Transferred, StakeOpApplied, Anchored, ModelRegistered, Proposed, Voted, Disputed, Locking, Settling, Minted;
    hide TeeRegistered, GatewayRegistered, GatewayRemoved;
    hide OnAccounts, OnStakes, OnReceipts, OnModels, OnGov, OnEscrows, OnRegistry;
    var height := ctx.CurrentHeight();
    match stx.tx {
      case Transfer(from, to, amount, nonce, fee) => out := ApplyTransfer(ctx, from, to, amount, nonce, fee);
      case Stake(op) => out := StakeApply.ApplyStakeOp(ctx, op, OfSigner(stx.signer), height);
      case AnchorReceipts(b) => out := ApplyReceiptBatch(ctx, b, height);
      case RegisterModel(manifest, registrar, deposit) => out := ApplyRegisterModel(ctx, manifest, registrar, deposit);
      case Propose(proposal) => out := ApplyGovProposal(ctx, stx.signer, proposal, height);
      case Vote(id, voter, choice) => out := ApplyGovVote(ctx, id, voter, choice);
      case Dispute(claim) => out := ApplyDispute(ctx, claim);
      case EscrowLock(user, job, amount, nonce, fee) => out :=
        ApplyEscrowLock(ctx, user, job, amount, nonce, fee, height);
      case EscrowSettle(job, p) => out := ApplyEscrowSettle(ctx, job, p, height);
      case RewardMint(_, total, p) => out := ApplyRewardMint(ctx, total, p);
      case RegisterTee(node, _, capability) => out := ApplyRegisterTee(ctx, node, capability);
      case RegisterGateway(node, operator, url, https) =>
        out := ApplyRegisterGateway(ctx, node, operator, url, https, height);
      case UnregisterGateway(node, _) => out := ApplyUnregisterGateway(ctx, node);
    }
  }
}
