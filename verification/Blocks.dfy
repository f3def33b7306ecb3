/**
 Blocks: the proposer applies drained transactions and keeps the ones that work, every
 validator replays them, checks the account root against the header, and commits.
 */
module Blocks {
  import opened Numeric
  import opened MapSums
  import opened Types
  import opened LedgerSpec
  import opened KeyOrder
  import opened Store
  import TxApply
  import Replay
  import Governance
  import FeeMarket
  import Slashing
  import ValidatorSet
  import Emission
  import Mempool

  const ESCROW_TIMEOUT_BLOCKS: u64 := 7_200

  datatype Header = Header(height: u64, timestamp: u64, baseFee: u128, stateRoot: StateRoot)

  datatype Block = Block(header: Header, txs: seq<SignedTx>)

  datatype CommitResult =
    | Committed(root: StateRoot, gas: u64, applied: nat)
    | RootMismatch(replayed: StateRoot)
    | Overflowed

  predicate IsEpochBoundary(height: u64) {
    height != 0 && height % EPOCH_LENGTH_BLOCKS == 0
  }

  // ----- What a block does -----

  /** A dispute whose hashes differ, accepted or not: commit slashes for it. */
  predicate Accuses(tx: Transaction) {
    tx.Dispute? && tx.claim.claimedHash != tx.claim.reexecHash
  }

  function ChargeOf(claim: DisputeClaim): Slashing.Charge {
    Slashing.Charge(claim.computeNode, Compute, Slashing.FailedDeterministicVerification)
  }

  ghost function SlashFor(base: Columns, live: Columns, tx: Transaction): Option<Columns> {
    if !Accuses(tx) then Some(live)
    else
      match Slashing.Slashed(base, StakesOf(live), ChargeOf(tx.claim), tx.claim.reporter, OfTreasuryTag)
      case None => None
      case Some(book) => Some(WithStakes(live, book))
  }

  /** Every slash of a block, in order; `None` on overflow. */
  ghost function SlashAll(base: Columns, live: Columns, txs: seq<SignedTx>): Option<Columns> {
    if txs == [] then Some(live)
    else
      var before := SlashAll(base, live, txs[..|txs| - 1]);
      if before.None? then None else SlashFor(base, before.value, txs[|txs| - 1].tx)
  }

  function WithRotation(live: Columns, validators: map<NodeId, ValidatorInfo>): Columns {
    live.(validators := validators)
  }

  /** Validators and mint at an epoch boundary. */
  ghost function AfterMint(base: Columns, live: Columns, height: u64): Option<Columns> {
    var rotated := WithRotation(live, ValidatorSet.RotatedValidators(base, live.validators, height));
    match Emission.Mint(base, live.accounts, live.pendingRewards, height)
    case None => None
    case Some(book) => Some(Emission.WithMint(rotated, book))
  }

  ghost function AfterGovernance(base: Columns, live: Columns, timestamp: u64): Option<Columns> {
    match Governance.Advance(base, GovOf(live), IdsInOrder(base.proposals.Keys), timestamp)
    case Some(book) => Some(WithGov(live, book))
    case None => None
  }

  /** The work of an epoch boundary; `None` on overflow. */
  ghost function Rotated(base: Columns, live: Columns, header: Header): Option<Columns> {
    if IsEpochBoundary(header.height) then
      match AfterMint(base, live, header.height)
      case None => None
      case Some(c) => AfterGovernance(base, c, header.timestamp)
    else Some(live)
  }

  /** The columns no epoch boundary touches. */
  predicate KeepsRest(c: Columns, d: Columns) {
    && d.stakes == c.stakes && d.unbondings == c.unbondings && d.nextUnbondId == c.nextUnbondId
    && d.receipts == c.receipts && d.escrows == c.escrows && d.models == c.models && d.height == c.height
    && d.registry == c.registry
  }

  lemma MintKeepsRest(live: Columns, validators: map<NodeId, ValidatorInfo>, b: Emission.MintBook)
    ensures KeepsRest(live, Emission.WithMint(WithRotation(live, validators), b))
    ensures GovOf(Emission.WithMint(WithRotation(live, validators), b)) == GovOf(live).(accounts := b.accounts)
  {
  }

  lemma GovernanceKeepsRest(live: Columns, b: GovBook)
    ensures KeepsRest(live, WithGov(live, b)) && GovOf(WithGov(live, b)) == b
  {
  }

  lemma RotatedKeepsRest(base: Columns, live: Columns, header: Header)
    requires Rotated(base, live, header).Some?
    ensures KeepsRest(live, Rotated(base, live, header).value)
  {
    hide Governance.Advance, Emission.Mint, ValidatorSet.RotatedValidators, WithGov, GovOf, Emission.WithMint,
      WithRotation;
    if IsEpochBoundary(header.height) {
      var validators := ValidatorSet.RotatedValidators(base, live.validators, header.height);
      MintKeepsRest(live, validators, Emission.Mint(base, live.accounts, live.pendingRewards, header.height).value);
      var c := AfterMint(base, live, header.height).value;
      GovernanceKeepsRest(c,
        Governance.Advance(base, GovOf(c), IdsInOrder(base.proposals.Keys), header.timestamp).value);
    }
  }

  function NextFee(header: Header, gas: u64): u128 {
    FeeMarket.NextBaseFee(header.baseFee, gas, FeeMarket.TARGET_GAS_PER_BLOCK).value
  }

  function Sealed(c: Columns, header: Header, gas: u64): Columns {
    c.(height := header.height, baseFee := NextFee(header, gas))
  }

  /** The columns a replay of the block leaves, before the root check; `None` on overflow. */
  ghost function Replayed(base: Columns, block: Block): Option<Columns> {
    match RunAll(base, block.txs)
    case Aborted => None
    case Pass(live, gas, _) =>
      match SlashAll(base, live, block.txs)
      case None => None
      case Some(slashed) =>
        match Rotated(base, slashed, block.header)
        case None => None
        case Some(c) => Some(Sealed(c, block.header, gas))
  }

  /** Whether a validator on `base` commits the block. */
  ghost predicate Accepts(base: Columns, block: Block) {
    Replayed(base, block).Some? && StateRoot(Replayed(base, block).value.accounts) == block.header.stateRoot
  }

  /** The committed state after a decided block: a refused one changes nothing. */
  ghost function Next(base: Columns, block: Block): Columns {
    if Accepts(base, block) then Replayed(base, block).value else base
  }

  /** The transactions of a decided block that took effect. */
  ghost function Landing(base: Columns, block: Block): seq<SignedTx> {
    if Accepts(base, block) then RunAll(base, block.txs).kept else []
  }

  // ----- The two transaction loops -----

  ghost predicate RanAs(pass: Pass, live: Columns, gas: u64, kept: seq<SignedTx>, overflow: bool) {
    if overflow then pass.Aborted? else pass == Pass(live, gas, kept)
  }

  lemma {:induction false} AbortedStays(base: Columns, txs: seq<SignedTx>, n: nat)
    requires n <= |txs| && RunAll(base, txs[..n]).Aborted?
    ensures RunAll(base, txs).Aborted?
    decreases |txs|
  {
    if n == |txs| {
      assert txs[..n] == txs;
    } else {
      assert txs[..|txs| - 1][..n] == txs[..n];
      AbortedStays(base, txs[..|txs| - 1], n);
    }
  }

  /** The proposer's loop. */
  method ApplyAndKeep(ctx: BlockCtx, txs: seq<SignedTx>) returns (kept: seq<SignedTx>, gas: u64, overflow: bool)
    requires ctx.Valid() && ctx.live == ctx.state.db
    modifies ctx
    ensures ctx.Valid() && RanAs(RunAll(ctx.state.db, txs), ctx.live, gas, kept, overflow)
  {
    hide Apply;
    ghost var base := ctx.state.db;
    kept, gas, overflow := [], 0, false;
    for i := 0 to |txs|
      invariant ctx.Valid() && RunAll(base, txs[..i]) == Pass(ctx.live, gas, kept)
    {
      RunAllSnoc(base, txs[..i], txs[i]);
      assert txs[..i + 1] == txs[..i] + [txs[i]];
      var out := TxApply.ApplyTx(ctx, txs[i]);
      match out {
        case Applied(g) =>
          gas := SatAdd64(gas, g);
          kept := kept + [txs[i]];
        case Dropped(_) =>
        case Panicked =>
          AbortedStays(base, txs, i + 1);
          return kept, gas, true;
      }
    }
    assert txs[..|txs|] == txs;
  }

  /** The validators' loop, which only counts. */
  method ReplayAll(ctx: BlockCtx, txs: seq<SignedTx>) returns (gas: u64, applied: nat, overflow: bool)
    requires ctx.Valid() && ctx.live == ctx.state.db
    modifies ctx
    ensures ctx.Valid()
    ensures var pass := RunAll(ctx.state.db, txs);
      if overflow then pass.Aborted?
        else pass.Pass? && pass.live == ctx.live && pass.gas == gas && |pass.kept| == applied
  {
    hide Apply;
    ghost var base := ctx.state.db;
    gas, applied, overflow := 0, 0, false;
    for i := 0 to |txs|
      invariant ctx.Valid() && RunAll(base, txs[..i]).Pass?
      invariant var pass := RunAll(base, txs[..i]); pass.live == ctx.live && pass.gas == gas && |pass.kept| == applied
    {
      RunAllSnoc(base, txs[..i], txs[i]);
      assert txs[..i + 1] == txs[..i] + [txs[i]];
      var out := TxApply.ApplyTx(ctx, txs[i]);
      match out {
        case Applied(g) =>
          gas := SatAdd64(gas, g);
          applied := applied + 1;
        case Dropped(_) =>
        case Panicked =>
          AbortedStays(base, txs, i + 1);
          return gas, applied, true;
      }
    }
    assert txs[..|txs|] == txs;
  }

  // ----- Commit -----

  method SlashOne(ctx: BlockCtx, tx: Transaction) returns (overflow: bool)
    requires ctx.Valid()
    modifies ctx
    ensures ctx.Valid()
    ensures var r := SlashFor(ctx.state.db, old(ctx.live), tx); overflow == r.None? && (overflow || ctx.live == r.value)
  {
    hide Slashing.Slashed, Slashing.SlashReportOf;
    overflow := false;
    if Accuses(tx) {
      var report;
      report, overflow := Slashing.ApplySlash(ctx, ChargeOf(tx.claim), tx.claim.reporter, OfTreasuryTag);
    }
  }

  lemma {:induction false} SlashStuck(base: Columns, live: Columns, txs: seq<SignedTx>, n: nat)
    requires n <= |txs| && SlashAll(base, live, txs[..n]).None?
    ensures SlashAll(base, live, txs).None?
    decreases |txs|
  {
    hide SlashFor;
    if n == |txs| {
      assert txs[..n] == txs;
    } else {
      assert txs[..|txs| - 1][..n] == txs[..n];
      SlashStuck(base, live, txs[..|txs| - 1], n);
    }
  }

  /** Slashes for every accusation in the block, whatever became of the transaction. */
  method DispatchSlashes(ctx: BlockCtx, txs: seq<SignedTx>) returns (overflow: bool)
    requires ctx.Valid()
    modifies ctx
    ensures ctx.Valid()
    ensures var r := SlashAll(ctx.state.db, old(ctx.live), txs);
      overflow == r.None? && (overflow || ctx.live == r.value)
  {
    ghost var base, before := ctx.state.db, ctx.live;
    overflow := false;
    var i := 0;
    assert txs[..0] == [];
    hide SlashFor;
    while i < |txs| && !overflow
      invariant ctx.Valid() && i <= |txs|
      invariant var r := SlashAll(base, before, txs[..i]); overflow == r.None? && (overflow || ctx.live == r.value)
    {
      assert txs[..i + 1][..i] == txs[..i];
      overflow := SlashOne(ctx, txs[i].tx);
      i := i + 1;
    }
    if overflow {
      SlashStuck(base, before, txs, i);
    } else {
      assert txs[..i] == txs;
    }
  }

  lemma {:induction false} NobodyAccused(base: Columns, live: Columns, txs: seq<SignedTx>)
    requires forall stx :: stx in txs ==> !Accuses(stx.tx)
    ensures SlashAll(base, live, txs) == Some(live)
  {
    if txs != [] {
      assert txs[|txs| - 1] in txs;
      NobodyAccused(base, live, txs[..|txs| - 1]);
    }
  }

  method RotateAndMint(ctx: BlockCtx, height: u64) returns (overflow: bool)
    requires ctx.Valid()
    modifies ctx
    ensures ctx.Valid()
    ensures var r := AfterMint(ctx.state.db, old(ctx.live), height);
      overflow == r.None? && (overflow || ctx.live == r.value)
  {
    hide ValidatorSet.RotatedValidators, Emission.Mint;
    var active := ValidatorSet.RecomputeValidatorSet(ctx, height);
    overflow := Emission.EpochBoundaryMint(ctx, height);
  }

  method Rotate(ctx: BlockCtx, header: Header) returns (overflow: bool)
    requires ctx.Valid()
    modifies ctx
    ensures ctx.Valid()
    ensures var r := Rotated(ctx.state.db, old(ctx.live), header);
      overflow == r.None? && (overflow || ctx.live == r.value)
  {
    hide AfterMint, Governance.Advance, WithGov;
    overflow := false;
    if IsEpochBoundary(header.height) {
      overflow := RotateAndMint(ctx, header.height);
      if !overflow {
        overflow := Governance.ProcessGovernanceProposals(ctx, header.timestamp);
      }
    }
  }

  method Seal(ctx: BlockCtx, header: Header, gas: u64)
    requires ctx.Valid()
    modifies ctx
    ensures ctx.Valid() && ctx.live == Sealed(old(ctx.live), header, gas)
  {
    hide Governance.Advance;
    ctx.SetCurrentHeight(header.height);
    ctx.Put(WriteBaseFee(NextFee(header, gas)));
  }

  function HashesOf(txs: seq<SignedTx>): seq<Transaction> {
    seq(|txs|, i requires 0 <= i < |txs| => txs[i].tx)
  }

  /** Replays into a fresh context; the state is not touched. */
  method Rerun(s: State, block: Block) returns (ctx: BlockCtx, gas: u64, applied: nat, overflow: bool)
    requires s.Valid()
    ensures fresh(ctx) && ctx.Valid() && ctx.state == s
    ensures overflow == Replayed(s.db, block).None?
    ensures !overflow ==> Some(ctx.live) == Replayed(s.db, block)
    ensures !overflow ==> gas == RunAll(s.db, block.txs).gas && applied == |RunAll(s.db, block.txs).kept|
  {
    hide RunAll, SlashAll, Rotated, Sealed;
    ctx := new BlockCtx(s);
    gas, applied, overflow := ReplayAll(ctx, block.txs);
    if !overflow {
      overflow := DispatchSlashes(ctx, block.txs);
    }
    if !overflow {
      overflow := Rotate(ctx, block.header);
    }
    if !overflow {
      Seal(ctx, block.header, gas);
    }
  }

  /** Commits a decided block: all of it if the replayed account root is the one in the
      header, else nothing. */
  method CommitBlock(s: State, pool: Mempool.Pool, block: Block) returns (r: CommitResult)
    requires s.Valid() && pool.Valid()
    modifies s, pool
    ensures s.Valid() && pool.Valid()
    ensures s.db == Next(old(s.db), block) && (r.Committed? <==> Accepts(old(s.db), block))
    ensures pool.byHash ==
      if Accepts(old(s.db), block) then Mempool.Without(old(pool.byHash), HashesOf(block.txs)) else old(pool.byHash)
    ensures match Replayed(old(s.db), block)
      case None => r == Overflowed
      case Some(c) =>
        if Accepts(old(s.db), block) then
          var pass := RunAll(old(s.db), block.txs);
          r == Committed(block.header.stateRoot, pass.gas, |Landing(old(s.db), block)|)
        else r == RootMismatch(StateRoot(c.accounts))
  {
    hide Replayed, RunAll;
    var ctx, gas, applied, overflow := Rerun(s, block);
    if overflow {
      return Overflowed;
    }
    var replayed := ctx.PreviewStateRoot();
    if replayed != block.header.stateRoot {
      return RootMismatch(replayed);
    }
    var root := ctx.Commit();
    pool.RemoveMany(HashesOf(block.txs));
    r := Committed(root, gas, applied);
  }

  // ----- The proposer's refund pass -----

  function HeldAmount(e: EscrowEntry): nat {
    e.amount
  }

  predicate IsExpired(e: EscrowEntry, height: u64) {
    e.state == Locked && SatAdd64(e.createdAt, ESCROW_TIMEOUT_BLOCKS) <= height
  }

  /** A refund is due exactly from 7,200 blocks after the lock on, while it is locked. */
  lemma ExpiresExactly(e: EscrowEntry, height: u64)
    ensures IsExpired(e, height) <==> e.state == Locked && Min(e.createdAt + 7_200, U64_MAX) <= height
  {
  }

  function Expired(escrows: Escrows, height: u64): Escrows {
    map j | j in escrows && IsExpired(escrows[j], height) :: escrows[j]
  }

  function OwedTo(due: Escrows, a: Address): Escrows {
    map j | j in due && due[j].user == a :: due[j]
  }

  ghost function DueTo(due: Escrows, a: Address): nat {
    Sum(OwedTo(due, a), HeldAmount)
  }

  function Raised(acct: Account, amount: nat): Account {
    acct.(balance := Min(acct.balance + amount, U128_MAX))
  }

  /** Every user got the sum of its due escrows, clamped; nonces and everyone else are as before. */
  ghost predicate CreditedWith(before: Accounts, after: Accounts, due: Escrows) {
    forall a :: AccountAt(after, a) == Raised(AccountAt(before, a), DueTo(due, a))
  }

  lemma CreditKeepsNoEmpty(accounts: Accounts, a: Address, amount: u128)
    requires NoEmptyAccounts(accounts)
    ensures NoEmptyAccounts(Credit(accounts, a, amount))
  {
  }

  lemma CreditAt(accounts: Accounts, to: Address, amount: u128, a: Address)
    ensures AccountAt(Credit(accounts, to, amount), a) == Raised(AccountAt(accounts, a), if a == to then amount else 0)
  {
  }

  lemma DueOneMore(due: Escrows, j: JobId, e: EscrowEntry, a: Address)
    requires j !in due
    ensures DueTo(due[j := e], a) == DueTo(due, a) + if a == e.user then e.amount else 0
  {
    if a == e.user {
      assert OwedTo(due[j := e], a) == OwedTo(due, a)[j := e];
      SumUpdate(OwedTo(due, a), HeldAmount, j, e);
    } else {
      assert OwedTo(due[j := e], a) == OwedTo(due, a);
    }
  }

  lemma CreditOne(before: Accounts, after: Accounts, due: Escrows, j: JobId, e: EscrowEntry)
    requires CreditedWith(before, after, due) && j !in due && NoEmptyAccounts(after)
    ensures CreditedWith(before, Credit(after, e.user, e.amount), due[j := e])
    ensures NoEmptyAccounts(Credit(after, e.user, e.amount))
  {
    CreditKeepsNoEmpty(after, e.user, e.amount);
    hide NoEmptyAccounts;
    forall a
      ensures AccountAt(Credit(after, e.user, e.amount), a) == Raised(AccountAt(before, a), DueTo(due[j := e], a))
    {
      DueOneMore(due, j, e, a);
      hide DueTo;
      CreditAt(after, e.user, e.amount, a);
    }
  }

  ghost predicate RefundedSoFar(before: Columns, live: Columns, due: Escrows) {
    && NoEmptyAccounts(live.accounts)
    && CreditedWith(before.accounts, live.accounts, due)
    && live == before.(accounts := live.accounts, escrows := before.escrows - due.Keys)
  }

  lemma NothingRefunded(c: Columns)
    requires NoEmptyAccounts(c.accounts)
    ensures RefundedSoFar(c, c, map[])
  {
    forall a
      ensures DueTo(map[], a) == 0
    {
      assert OwedTo(map[], a) == map[];
    }
    assert c.escrows - {} == c.escrows;
  }

  function RefundOf(live: Columns, j: JobId, e: EscrowEntry): Columns {
    live.(accounts := Credit(live.accounts, e.user, e.amount), escrows := live.escrows - {j})
  }

  lemma RefundStep(before: Columns, live: Columns, due: Escrows, j: JobId, e: EscrowEntry)
    requires RefundedSoFar(before, live, due) && j !in due
    ensures RefundedSoFar(before, RefundOf(live, j, e), due[j := e])
  {
    CreditOne(before.accounts, live.accounts, due, j, e);
    hide CreditedWith, NoEmptyAccounts, Credit;
    assert before.escrows - due.Keys - {j} == before.escrows - due[j := e].Keys;
  }

  method RefundOne(ctx: BlockCtx, j: JobId, e: EscrowEntry)
    requires ctx.Valid()
    modifies ctx
    ensures ctx.Valid() && ctx.live == RefundOf(old(ctx.live), j, e)
  {
    hide Credit;
    ctx.CreditAccount(e.user, e.amount);
    ctx.Put(WriteEscrow(j, None));
  }

  function ExpiredOutside(escrows: Escrows, rest: set<JobId>, height: u64): Escrows {
    map j | j in escrows && j !in rest && IsExpired(escrows[j], height) :: escrows[j]
  }

  lemma ExpiredOneMore(escrows: Escrows, rest: set<JobId>, height: u64, j: JobId)
    requires j in rest && j in escrows
    ensures ExpiredOutside(escrows, rest - {j}, height) ==
      if IsExpired(escrows[j], height) then ExpiredOutside(escrows, rest, height)[j := escrows[j]]
      else ExpiredOutside(escrows, rest, height)
    ensures j !in ExpiredOutside(escrows, rest, height)
  {
  }

  lemma ExpiredEnds(escrows: Escrows, height: u64)
    ensures ExpiredOutside(escrows, escrows.Keys, height) == map[]
    ensures ExpiredOutside(escrows, {}, height) == Expired(escrows, height)
  {
  }

  /** Credits back every committed escrow that has timed out, whatever the block did to
      it. The result does not depend on the order of the scan. */
  method RefundExpiredEscrows(ctx: BlockCtx, height: u64)
    requires ctx.Valid() && NoEmptyAccounts(ctx.live.accounts)
    modifies ctx
    ensures ctx.Valid() && RefundedSoFar(old(ctx.live), ctx.live, Expired(ctx.state.db.escrows, height))
  {
    var escrows := ctx.state.db.escrows;
    ghost var before := ctx.live;
    NothingRefunded(before);
    ExpiredEnds(escrows, height);
    var rest := escrows.Keys;
    hide RefundedSoFar, IsExpired, NoEmptyAccounts, RefundOf, ExpiredOutside;
    while rest != {}
      invariant ctx.Valid() && rest <= escrows.Keys
      invariant RefundedSoFar(before, ctx.live, ExpiredOutside(escrows, rest, height))
      decreases |rest|
    {
      var j :| j in rest;
      ExpiredOneMore(escrows, rest, height, j);
      if IsExpired(escrows[j], height) {
        RefundStep(before, ctx.live, ExpiredOutside(escrows, rest, height), j, escrows[j]);
        RefundOne(ctx, j, escrows[j]);
      }
      rest := rest - {j};
    }
  }

  // ----- The proposal -----

  /** The header a proposer derives: the account root after its transactions and its refunds. */
  ghost predicate ProposedRoot(base: Columns, live: Columns, height: u64, root: StateRoot) {
    && NoEmptyAccounts(root.leaves)
    && CreditedWith(live.accounts, root.leaves, Expired(base.escrows, height))
  }

  /** What the pool hands out replays as it was built. */
  lemma PoolBuiltReplays(base: Columns, drained: seq<SignedTx>)
    requires forall stx :: stx in drained ==> Mempool.LaneOf(stx.tx).Lane?
    ensures var pass := RunAll(base, drained);
      pass.Pass? ==>
        RunAll(base, pass.kept) == pass && forall stx :: stx in pass.kept ==> Mempool.LaneOf(stx.tx).Lane?
  {
    hide RunAll;
    if RunAll(base, drained).Pass? {
      Replay.MarkFreeReplay(base, drained);
      Replay.KeptAreGiven(base, drained);
    }
  }

  method ProposeFrom(s: State, drained: seq<SignedTx>, height: u64) returns (root: StateRoot, kept: seq<SignedTx>,
      overflow: bool)
    requires s.Valid()
    modifies s
    ensures s.Valid() && s.db == old(s.db) && s.smt == old(s.smt)
    ensures var pass := RunAll(s.db, drained);
      if overflow then pass.Aborted? else pass.Pass? && pass.kept == kept && ProposedRoot(s.db, pass.live, height, root)
  {
    hide RunAll, CreditedWith, Expired;
    root := StateRoot(map[]);
    var ctx := new BlockCtx(s);
    var gas;
    kept, gas, overflow := ApplyAndKeep(ctx, drained);
    if overflow {
      return;
    }
    TreeMirrorsAccounts(s.db, ctx.batch);
    RefundExpiredEscrows(ctx, height);
    root := ctx.PreviewStateRoot();
  }

  /** Builds a block from the pool. The state is left as it was. */
  method BuildBlock(s: State, pool: Mempool.Pool, height: u64, timestamp: u64, baseFee: u128, gasLimit: u64,
      bytesBudget: u64)
    returns (block: Option<Block>, drained: seq<SignedTx>, ghost entries: seq<Mempool.Entry>)
    requires s.Valid() && pool.Valid()
    modifies s, pool
    ensures s.Valid() && pool.Valid() && s.db == old(s.db) && s.smt == old(s.smt)
    ensures Mempool.Drained(old(pool.byHash), pool.byHash, entries, gasLimit, bytesBudget)
      && drained == Mempool.TxsOf(entries)
    ensures var pass := RunAll(s.db, drained);
      if pass.Aborted? then block == None
      else
        && block.Some? && block.value.txs == pass.kept
        && block.value.header == Header(height, timestamp, baseFee, block.value.header.stateRoot)
        && ProposedRoot(s.db, pass.live, height, block.value.header.stateRoot)
        && RunAll(s.db, block.value.txs) == pass && forall stx :: stx in block.value.txs ==>
          Mempool.LaneOf(stx.tx).Lane?
  {
    hide RunAll, Mempool.Drained, Mempool.TxsOf, Mempool.GoodEntries;
    var gasUsed, bytesUsed;
    ghost var before, nextSeq := pool.byHash, pool.nextSeq;
    drained, gasUsed, bytesUsed, entries := pool.DrainForBlock(gasLimit, bytesBudget);
    Mempool.PickedHaveLanes(before, pool.byHash, entries, gasLimit, bytesBudget, nextSeq);
    PoolBuiltReplays(s.db, drained);
    var root, kept, overflow := ProposeFrom(s, drained, height);
    block := if overflow then None else Some(Block(Header(height, timestamp, baseFee, root), kept));
  }
}
