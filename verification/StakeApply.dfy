/**
 The stake handlers: deposit, withdraw, complete, redelegate, each run on the block
 context and shown to do what `LedgerSpec` says.
 */
module StakeApply {
  import opened Numeric
  import opened Types
  import opened LedgerSpec
  import opened Store

  method CheckMinimum(ctx: BlockCtx, key: StakeKey, amount: u128, height: u64) returns (below: bool)
    requires ctx.Valid() && height == ctx.live.height
    ensures below == BelowMinimum(InBootstrap(height, |ctx.state.db.validators|), ctx.live.stakes, key, amount)
  {
    hide BlockCtx.Valid;
    if InBootstrap(height, |ctx.state.db.validators|) {
      return false;
    }
    var existing := ctx.GetStake(key);
    var existingAmount := if existing.Some? then existing.value.amount else 0;
    below := SatAdd128(existingAmount, amount) < BaseMinStake(key.role);
  }

  lemma StakesView(live: Columns)
    ensures var b := StakesOf(live);
      && b.accounts == live.accounts && b.stakes == live.stakes
      && b.unbondings == live.unbondings && b.nextUnbondId == live.nextUnbondId
      && WithStakes(live, b) == live
  {
  }

  lemma StakesSet(live: Columns, accounts: Accounts, stakes: Stakes)
    ensures WithStakes(live, StakesOf(live).(accounts := accounts, stakes := stakes))
      == live.(accounts := accounts).(stakes := stakes)
  {
  }

  method ApplyDeposit(ctx: BlockCtx, sender: Address, key: StakeKey, amount: u128, height: u64) returns (out: Outcome)
    requires ctx.Valid() && height == ctx.live.height
    modifies ctx
    ensures ctx.Valid()
    ensures Step(ctx.live, out) == OnStakes(old(ctx.live),
      Deposited(InBootstrap(height, |ctx.state.db.validators|), StakesOf(old(ctx.live)), sender, key, amount, height))
  {
    hide InBootstrap, BelowMinimum, Debit, TopUp, BlockCtx.Valid, AccountAt;
    ghost var was := ctx.live;
    StakesView(was);
    if amount <= AccountAt(was.accounts, sender).balance {
      StakesSet(was, Debit(was.accounts, sender, amount), TopUp(was.stakes, key, amount, height));
    }
    hide StakesOf, WithStakes;
    var below := CheckMinimum(ctx, key, amount, height);
    var acct := ctx.GetAccount(sender).GetOr(ZERO_ACCOUNT);
    if !MayActFor(sender, key.delegator) {
      out := Dropped(ThirdPartyDelegation);
    } else if below {
      out := Dropped(NotYetImplemented("stake below minimum for this role"));
    } else if acct.balance < amount {
      out := Dropped(InsufficientBalance(acct.balance, amount));
    } else {
      ctx.DebitAccount(sender, acct, amount);
      ctx.TopUpStake(key, amount, height);
      out := Applied(STAKE_OP_GAS);
    }
  }

  /** The position `sender` draws on, if there is one. */
  method FindSource(ctx: BlockCtx, sender: Address, node: NodeId, role: StakeRole, pool: Option<PoolId>)
    returns (key: StakeKey, entry: Option<StakeEntry>)
    requires ctx.Valid()
    ensures key == SourceKey(ctx.live.stakes, sender, node, role, pool)
    ensures entry == Lookup(ctx.live.stakes, key)
  {
    hide BlockCtx.Valid;
    key := StakeKey(node, role, pool, Some(sender));
    entry := ctx.GetStake(key);
    if entry.None? {
      key := StakeKey(node, role, pool, None);
      entry := ctx.GetStake(key);
    }
  }

  method ApplyWithdraw(ctx: BlockCtx, sender: Address, node: NodeId, role: StakeRole, pool: Option<PoolId>,
      amount: u128,
    height: u64) returns (out: Outcome)
    requires ctx.Valid() && height == ctx.live.height
    modifies ctx
    ensures ctx.Valid()
    ensures Does(ctx.live, out,
      OnStakes(old(ctx.live), Withdrawn(StakesOf(old(ctx.live)), sender, node, role, pool, amount, height)))
  {
    hide BlockCtx.Valid, SourceKey, PutStake;
    var key, found := FindSource(ctx, sender, node, role, pool);
    if found.None? {
      return Dropped(StakeNotFound);
    }
    var entry := found.value;
    if amount > entry.amount {
      return Dropped(StakeExceeded(amount, entry.amount));
    }
    ctx.SetStake(key, entry.(amount := entry.amount - amount));
    var id := ctx.NextUnbondId();
    if height + UNBONDING_PERIOD_BLOCKS > U64_MAX {
      return Panicked;
    }
    ctx.SetUnbonding(UnbondKey(node, id),
      UnbondingEntry(role, pool, key.delegator, amount, height, height + UNBONDING_PERIOD_BLOCKS));
    if id == U64_MAX {
      return Panicked;
    }
    ctx.SetNextUnbondId(id + 1);
    out := Applied(STAKE_OP_GAS);
  }

  method ApplyComplete(ctx: BlockCtx, sender: Address, node: NodeId, id: u64, height: u64) returns (out: Outcome)
    requires ctx.Valid() && height == ctx.live.height
    modifies ctx
    ensures ctx.Valid()
    ensures Step(ctx.live, out) == OnStakes(old(ctx.live), Completed(StakesOf(old(ctx.live)), sender, node, id, height))
  {
    hide BlockCtx.Valid;
    var found := ctx.GetUnbonding(UnbondKey(node, id));
    if found.None? {
      return Dropped(UnbondingNotFound);
    }
    var entry := found.value;
    if !MayActFor(sender, entry.delegator) {
      return Dropped(UnbondingNotFound);
    }
    if height < entry.completesAt {
      return Dropped(UnbondingNotComplete(height, entry.completesAt));
    }
    ctx.CreditAccount(Holder(entry.delegator, sender), entry.amount);
    ctx.DeleteUnbonding(UnbondKey(node, id));
    out := Applied(STAKE_OP_GAS);
  }

  method ApplyRedelegate(ctx: BlockCtx, sender: Address, source: NodeId, target: NodeId, role: StakeRole, amount: u128,
    height: u64) returns (out: Outcome)
    requires ctx.Valid() && height == ctx.live.height
    modifies ctx
    ensures ctx.Valid()
    ensures Step(ctx.live, out) ==
      OnStakes(old(ctx.live), Redelegated(StakesOf(old(ctx.live)), sender, source, target, role, amount, height))
  {
    hide BlockCtx.Valid, SourceKey, PutStake, TopUp;
    if source == target {
      return Dropped(RedelegateSameNode);
    }
    var key, found := FindSource(ctx, sender, source, role, None);
    if found.None? {
      return Dropped(StakeNotFound);
    }
    var src := found.value;
    if amount > src.amount {
      return Dropped(StakeExceeded(amount, src.amount));
    }
    var cooldownEnds := SatAdd64(src.bondedAt, REDELEGATE_COOLDOWN_BLOCKS);
    if height < cooldownEnds {
      return Dropped(RedelegateCooldown(SatSub64(cooldownEnds, height)));
    }
    ctx.SetStake(key, src.(amount := src.amount - amount));
    ctx.TopUpStake(key.(node := target), amount, height);
    out := Applied(STAKE_OP_GAS);
  }

  method ApplyStakeOp(ctx: BlockCtx, op: StakeOp, sender: Address, height: u64) returns (out: Outcome)
    requires ctx.Valid() && height == ctx.live.height
    modifies ctx
    ensures ctx.Valid()
    ensures Does(ctx.live, out, OnStakes(old(ctx.live),
      StakeOpApplied(InBootstrap(height, |ctx.state.db.validators|), StakesOf(old(ctx.live)), sender, op, height)))
  {
    hide BlockCtx.Valid;
    match op {
      case Deposit(node, role, pool, amount, delegator) =>
        out := ApplyDeposit(ctx, sender, StakeKey(node, role, pool, delegator), amount, height);
      case Withdraw(node, role, pool, amount) => out := ApplyWithdraw(ctx, sender, node, role, pool, amount, height);
      case Complete(node, id) => out := ApplyComplete(ctx, sender, node, id, height);
      case Redelegate(source, target, role, amount) =>
        out := ApplyRedelegate(ctx, sender, source, target, role, amount, height);
    }
  }
}
