/**
 Ledger entities: addresses, accounts, stake positions, unbondings, escrows,
 proposals, receipts and transactions.
 */
module Types {
  import opened Numeric
  import Merkle

  datatype Option<+T> = None | Some(value: T) {
    function GetOr(default: T): T {
      match this
      case Some(v) => v
      case None => default
    }
  }

  datatype NodeId = NodeId(id: nat)
  datatype PoolId = PoolId(id: nat)
  datatype JobId = JobId(id: nat)
  datatype PubKey = PubKey(id: nat)

  /** A 20-byte address. Addresses obtained by hashing (BLAKE3, truncated) are
      written by what was hashed, so distinct inputs give distinct addresses. */
  datatype Address = Raw(id: nat) | OfSigner(key: PubKey) | OfNode(node: NodeId) | OfTreasuryTag

  datatype Account = Account(balance: u128, nonce: u64) {
    predicate IsEmpty() { balance == 0 && nonce == 0 }
  }

  const ZERO_ACCOUNT := Account(0, 0)

  datatype StakeRole = Validator | Router | Verifier | Compute

  datatype StakeKey = StakeKey(node: NodeId, role: StakeRole, pool: Option<PoolId>, delegator: Option<Address>)

  /** Stored records do not repeat what their key says. */
  datatype StakeEntry = StakeEntry(amount: u128, bondedAt: u64)

  datatype UnbondKey = UnbondKey(node: NodeId, id: u64)

  datatype UnbondingEntry = UnbondingEntry(
    role: StakeRole, pool: Option<PoolId>, delegator: Option<Address>,
    amount: u128, startedAt: u64, completesAt: u64)

  datatype EscrowState = Locked | Settled | Refunded

  datatype EscrowEntry = EscrowEntry(job: JobId, user: Address, amount: u128, createdAt: u64, state: EscrowState)

  datatype PendingReward = PendingReward(
    outputTokens: u32, userPayment: u128, epoch: u64,
    compute: Address, verifier: Address, router: Address, treasury: Address,
    teeBps: u32, httpsBps: u32)

  datatype ValidatorInfo = ValidatorInfo(
    operator: Address, bondedStake: u128, votingPower: u64, isGenesis: bool, jailed: bool)

  datatype ProposalPhase = Discussion | Voting | Passed | Rejected | RejectedWithVeto | Executed

  datatype Proposal = Proposal(
    claimedId: u64, proposer: Address, deposit: u128, text: string,
    discussionEnds: u64, votingEnds: u64, activation: Option<u64>)

  datatype ProposalRecord = ProposalRecord(proposal: Proposal, phase: ProposalPhase, submittedAt: u64)

  datatype VoteChoice = Yes | No | Abstain | NoWithVeto

  datatype VoteKey = VoteKey(proposal: u64, voter: Address)

  datatype TeePlatform = IntelTdx | AmdSevSnp | ArmCca

  datatype SignatureScheme = Ed25519 | Dilithium | Falcon | Sphincs

  datatype TeeCapability = TeeCapability(platform: TeePlatform, quote: seq<u8>, scheme: SignatureScheme,
      enclaveKey: PubKey)

  datatype GatewayEntry = GatewayEntry(operator: Address, url: seq<u8>, https: bool, registeredAt: u64)

  /** The columns of confidential compute nodes and of public gateways. */
  datatype Registry = Registry(tees: map<NodeId, TeeCapability>, gateways: map<NodeId, GatewayEntry>) {
    function WithTee(node: NodeId, c: TeeCapability): Registry {
      this.(tees := tees[node := c])
    }

    function WithGateway(node: NodeId, e: Option<GatewayEntry>): Registry {
      this.(gateways := if e.Some? then gateways[node := e.value] else gateways - {node})
    }
  }

  datatype Manifest = Manifest(modelId: string, digest: nat, sizeBytes: u64)

  /** An inference receipt. `encoding` is its canonical byte encoding, the
      content of its Merkle leaf. */
  datatype Receipt = Receipt(
    job: JobId, computeNode: NodeId, routerNode: NodeId, outputTokens: u32, teeVerified: bool,
    encoding: seq<u8>)

  /** A claim that a compute node's output was wrong, and where the reporter is paid. */
  datatype DisputeClaim = DisputeClaim(
    job: JobId, computeNode: NodeId, claimedHash: nat, reexecHash: nat, reporter: Address)

  datatype ReceiptBatch = ReceiptBatch(receipts: seq<Receipt>, merkleRoot: Merkle.Digest)

  datatype StakeOp =
    | Deposit(node: NodeId, role: StakeRole, pool: Option<PoolId>, amount: u128, delegator: Option<Address>)
    | Withdraw(node: NodeId, role: StakeRole, pool: Option<PoolId>, amount: u128)
    | Complete(node: NodeId, unbondId: u64)
    | Redelegate(source: NodeId, target: NodeId, role: StakeRole, amount: u128)

  /** Who receives the parts of a reward. The router is named but paid nothing. */
  datatype Payees = Payees(compute: Address, verifier: Address, router: Address, treasury: Address)

  datatype Transaction =
    | Transfer(from: Address, to: Address, amount: u128, nonce: u64, fee: u64)
    | Stake(op: StakeOp)
    | AnchorReceipts(batch: ReceiptBatch)
    | RegisterModel(manifest: Manifest, registrar: Address, deposit: u128)
    | Propose(proposal: Proposal)
    | Vote(proposalId: u64, voter: Address, choice: VoteChoice)
    | Dispute(claim: DisputeClaim)
    | EscrowLock(user: Address, job: JobId, amount: u128, nonce: u64, fee: u64)
    | EscrowSettle(job: JobId, payees: Payees)
    | RewardMint(job: JobId, total: u128, payees: Payees)
    | RegisterTee(node: NodeId, operator: Address, capability: TeeCapability)
    | RegisterGateway(node: NodeId, operator: Address, url: seq<u8>, https: bool)
    | UnregisterGateway(node: NodeId, operator: Address)

  /** A transaction with its signer and its encoded size in bytes. Its hash covers
      the transaction body only, so the body serves as its own hash. */
  datatype SignedTx = SignedTx(tx: Transaction, signer: PubKey, encodedLen: u64)

  datatype RejectReason =
    | InsufficientBalance(have: u128, need: u128)
    | NonceMismatch(expected: u64, got: u64)
    | FeeTooLow(min: u64, offered: u64)
    | SelfTransfer
    | StakeNotFound
    | StakeExceeded(requested: u128, available: u128)
    | UnbondingNotComplete(current: u64, completesAt: u64)
    | UnbondingNotFound
    | RedelegateCooldown(blocksRemaining: u64)
    | ThirdPartyDelegation
    | RedelegateSameNode
    | EmptyReceiptBatch
    | ReceiptMerkleMismatch
    | ReceiptDoubleAnchor(job: JobId)
    | DisputeOutputMatches
    | DisputeReceiptNotFound
    | NotYetImplemented(what: string)

  /** Result of applying a transaction. `Panicked` is an arithmetic overflow, which
      aborts the process before anything of the block is committed. */
  datatype Outcome = Applied(gas: u64) | Dropped(reason: RejectReason) | Panicked

  /** The persistent column families. An absent counter, height or base fee
      reads as its default, so those are plain numbers. */
  datatype Columns = Columns(
    accounts: map<Address, Account>,
    stakes: map<StakeKey, StakeEntry>,
    unbondings: map<UnbondKey, UnbondingEntry>,
    receipts: map<JobId, u64>,
    escrows: map<JobId, EscrowEntry>,
    pendingRewards: map<JobId, PendingReward>,
    proposals: map<u64, ProposalRecord>,
    votes: map<VoteKey, VoteChoice>,
    models: map<string, Manifest>,
    nextUnbondId: u64,
    nextProposalId: u64,
    height: u64,
    baseFee: u128,
    validators: map<NodeId, ValidatorInfo>,
    registry: Registry)
}
