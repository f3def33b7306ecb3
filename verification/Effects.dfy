/**
 What a transaction that lands does to the ledger, account by account and record by record,
 and exactly when it lands. Amounts, limits and fractions are written as numbers, and the
 rest of the ledger is said to be as it was.
 */
module Effects {
  import opened Numeric
  import opened Types
  import opened LedgerSpec
  import Merkle

  /** Every account but those of `changed` reads as before. */
  ghost predicate OthersKept(before: Accounts, after: Accounts, changed: set<Address>) {
    forall a :: a !in changed ==> AccountAt(after, a) == AccountAt(before, a)
  }

  lemma PutReads(accounts: Accounts, a: Address, acct: Account)
    ensures AccountAt(PutAccount(accounts, a, acct), a) == acct
    ensures OthersKept(accounts, PutAccount(accounts, a, acct), {a})
  {
  }

  lemma CreditReads(accounts: Accounts, a: Address, amount: u128)
    ensures var was := AccountAt(accounts, a);
      AccountAt(Credit(accounts, a, amount), a) == Account(Min(was.balance + amount, U128_MAX), was.nonce)
    ensures OthersKept(accounts, Credit(accounts, a, amount), {a})
  {
    var was := AccountAt(accounts, a);
    PutReads(accounts, a, was.(balance := SatAdd128(was.balance, amount)));
    hide PutAccount, AccountAt;
  }

  lemma DebitReads(accounts: Accounts, a: Address, amount: u128)
    requires amount <= AccountAt(accounts, a).balance
    ensures var was := AccountAt(accounts, a);
      AccountAt(Debit(accounts, a, amount), a) == Account(was.balance - amount, was.nonce)
    ensures OthersKept(accounts, Debit(accounts, a, amount), {a})
  {
    var was := AccountAt(accounts, a);
    PutReads(accounts, a, was.(balance := was.balance - amount));
    hide PutAccount, AccountAt;
  }

  lemma SpendReads(accounts: Accounts, a: Address, amount: u128)
    requires amount <= AccountAt(accounts, a).balance && AccountAt(accounts, a).nonce < U64_MAX
    ensures var was := AccountAt(accounts, a);
      AccountAt(Spend(accounts, a, amount), a) == Account(was.balance - amount, was.nonce + 1)
    ensures OthersKept(accounts, Spend(accounts, a, amount), {a})
  {
    var was := AccountAt(accounts, a);
    PutReads(accounts, a, Account(was.balance - amount, was.nonce + 1));
    hide PutAccount, AccountAt;
  }

  // ----- Transfers -----

  /** A transfer lands exactly when it goes to somebody else, declares at least 21,000, carries the
      sender's nonce and is covered; it aborts where the nonce has nowhere to go. */
  lemma TransferLandsExactly(base: Columns, live: Columns, stx: SignedTx)
    requires stx.tx.Transfer?
    ensures var step, t, sender := Apply(base, live, stx), stx.tx, AccountAt(live.accounts, stx.tx.from);
      var fine := t.from != t.to && t.fee >= 21_000 && t.nonce == sender.nonce
        && t.amount + Min(t.fee * base.baseFee, U128_MAX) <= sender.balance;
      && (step.outcome.Applied? <==> fine && t.nonce < U64_MAX)
      && (step.outcome.Panicked? <==> fine && t.nonce == U64_MAX)
      && (step.outcome.Applied? ==> step.outcome == Applied(t.fee))
      && (!step.outcome.Applied? ==> step.live == live)
  {
    hide Credit, Spend, AccountAt;
  }

  /** Then the sender pays amount and fee and uses its nonce, the recipient has the amount, clamped,
      and nothing else changes. */
  lemma TransferMoves(base: Columns, live: Columns, stx: SignedTx)
    requires stx.tx.Transfer? && Apply(base, live, stx).outcome.Applied?
    ensures var after, t := Apply(base, live, stx).live, stx.tx;
      var sender, recipient := AccountAt(live.accounts, t.from), AccountAt(live.accounts, t.to);
      && AccountAt(after.accounts, t.from) ==
           Account(sender.balance - t.amount - Min(t.fee * base.baseFee, U128_MAX), sender.nonce + 1)
      && AccountAt(after.accounts, t.to) == Account(Min(recipient.balance + t.amount, U128_MAX), recipient.nonce)
      && OthersKept(live.accounts, after.accounts, {t.from, t.to})
      && after == live.(accounts := after.accounts)
  {
    hide Credit, Spend, AccountAt;
    TransferLandsExactly(base, live, stx);
    var t := stx.tx;
    var cost: u128 := t.amount + SatMul128(t.fee, base.baseFee);
    SpendReads(live.accounts, t.from, cost);
    CreditReads(Spend(live.accounts, t.from, cost), t.to, t.amount);
  }

  // ----- Escrows -----

  /** A lock lands exactly when it is worth something, no committed escrow has its job, it carries the
      user's nonce and amount and fee are covered. */
  lemma LockLandsExactly(base: Columns, live: Columns, stx: SignedTx)
    requires stx.tx.EscrowLock?
    ensures var step, t, user := Apply(base, live, stx), stx.tx, AccountAt(live.accounts, stx.tx.user);
      var fine := t.amount > 0 && t.job !in base.escrows && t.nonce == user.nonce
        && Min(t.amount + t.fee, U128_MAX) <= user.balance;
      && (step.outcome.Applied? <==> fine && t.nonce < U64_MAX)
      && (step.outcome.Panicked? <==> fine && t.nonce == U64_MAX)
      && (step.outcome.Applied? ==> step.outcome == Applied(50_000))
      && (!step.outcome.Applied? ==> step.live == live)
  {
    hide Spend, AccountAt;
  }

  /** Then the user pays amount and fee and uses its nonce, and the amount is locked under the job. */
  lemma LockTakes(base: Columns, live: Columns, stx: SignedTx)
    requires stx.tx.EscrowLock? && Apply(base, live, stx).outcome.Applied?
    ensures var after, t, user := Apply(base, live, stx).live, stx.tx, AccountAt(live.accounts, stx.tx.user);
      && AccountAt(after.accounts, t.user) ==
           Account(user.balance - Min(t.amount + t.fee, U128_MAX), user.nonce + 1)
      && OthersKept(live.accounts, after.accounts, {t.user})
      && after == live.(accounts := after.accounts,
           escrows := live.escrows[t.job := EscrowEntry(t.job, t.user, t.amount, live.height, Locked)])
  {
    LockLandsExactly(base, live, stx);
    var t := stx.tx;
    SpendReads(live.accounts, t.user, Min(t.amount + t.fee, U128_MAX));
    hide Spend, AccountAt;
  }

  // ----- Rewards -----

  /** What a reward of `total` pays to the address `a`: compute 80% and the delegators' 5%, the
      verifier 7%, the treasury the rest but the burned 3%; the sum where payees coincide. */
  function PartOf(total: u128, p: Payees, a: Address): (part: int) {
    (if a == p.compute then total * 80 / 100 + total * 5 / 100 else 0)
    + (if a == p.verifier then total * 7 / 100 else 0)
    + (if a == p.treasury then total - total * 80 / 100 - total * 7 / 100 - total * 3 / 100 - total * 5 / 100 else 0)
  }

  function Gains(acct: Account, amount: nat): Account {
    acct.(balance := Min(acct.balance + amount, U128_MAX))
  }

  lemma PaidReads(accounts: Accounts, a: Address, amount: u128, b: Address)
    ensures AccountAt(CreditIfPositive(accounts, a, amount), b) ==
      Gains(AccountAt(accounts, b), if a == b then amount else 0)
  {
    CreditReads(accounts, a, amount);
    hide Credit, AccountAt;
  }

  lemma GainsTwice(acct: Account, x: nat, y: nat)
    ensures Gains(Gains(acct, x), y) == Gains(acct, x + y)
  {
  }

  lemma PartsFit(total: u128)
    ensures 0 <= total * 80 / 100 + total * 5 / 100 <= total && 0 <= total * 7 / 100 <= total
    ensures 0 <= total - total * 80 / 100 - total * 7 / 100 - total * 3 / 100 - total * 5 / 100 <= total
  {
  }

  lemma SplitPays(accounts: Accounts, total: u128, p: Payees, a: Address)
    ensures PartOf(total, p, a) >= 0
    ensures AccountAt(SplitCredited(accounts, total, p), a) == Gains(AccountAt(accounts, a), PartOf(total, p, a))
  {
    hide CreditIfPositive, AccountAt, Gains;
    PartsFit(total);
    SplitAddsUp(total);
    var s := SplitOf(total);
    var one := CreditIfPositive(accounts, p.compute, s.compute + s.delegators);
    var two := CreditIfPositive(one, p.verifier, s.verifier);
    PaidReads(accounts, p.compute, s.compute + s.delegators, a);
    PaidReads(one, p.verifier, s.verifier, a);
    PaidReads(two, p.treasury, s.treasury, a);
    var x: nat, y: nat, z: nat := if p.compute == a then s.compute + s.delegators else 0,
      if p.verifier == a then s.verifier else 0, if p.treasury == a then s.treasury else 0;
    GainsTwice(AccountAt(accounts, a), x, y);
    GainsTwice(AccountAt(accounts, a), x + y, z);
  }

  /** A settlement lands exactly when its escrow is committed, locked and not too large to split. */
  lemma SettleLandsExactly(base: Columns, live: Columns, stx: SignedTx)
    requires stx.tx.EscrowSettle?
    ensures var step, job := Apply(base, live, stx), stx.tx.job;
      var fine := job in base.escrows && base.escrows[job].state == Locked;
      && (step.outcome.Applied? <==> fine && base.escrows[job].amount * 80 <= U128_MAX)
      && (step.outcome.Panicked? <==> fine && base.escrows[job].amount * 80 > U128_MAX)
      && (step.outcome.Applied? ==> step.outcome == Applied(50_000))
      && (!step.outcome.Applied? ==> step.live == live)
  {
    hide SplitCredited;
  }

  /** Then every address gains its part of the committed amount, clamped; the escrow is settled and a
      reward without tokens is queued for the current epoch. */
  lemma SettlePays(base: Columns, live: Columns, stx: SignedTx)
    requires stx.tx.EscrowSettle? && Apply(base, live, stx).outcome.Applied?
    ensures stx.tx.job in base.escrows
    ensures var after, t, e := Apply(base, live, stx).live, stx.tx, base.escrows[stx.tx.job];
      && (forall a :: PartOf(e.amount, t.payees, a) >= 0
           && AccountAt(after.accounts, a) == Gains(AccountAt(live.accounts, a), PartOf(e.amount, t.payees, a)))
      && after == live.(accounts := after.accounts,
           escrows := live.escrows[t.job := EscrowEntry(e.job, e.user, e.amount, e.createdAt, Settled)],
           pendingRewards := live.pendingRewards[t.job := PendingReward(0, e.amount, live.height / 3_600,
             t.payees.compute, t.payees.verifier, t.payees.router, t.payees.treasury, 10_000, 10_000)])
  {
    hide SplitCredited, AccountAt, Gains, PartOf;
    SettleLandsExactly(base, live, stx);
    var amount := base.escrows[stx.tx.job].amount;
    forall a ensures PartOf(amount, stx.tx.payees, a) >= 0
      && AccountAt(SplitCredited(live.accounts, amount, stx.tx.payees), a) ==
         Gains(AccountAt(live.accounts, a), PartOf(amount, stx.tx.payees, a))
    {
      SplitPays(live.accounts, amount, stx.tx.payees, a);
    }
  }

  lemma NoPart(p: Payees, a: Address)
    ensures PartOf(0, p, a) == 0
  {
  }

  /** A reward transaction lands unless its total is too large to split, and pays the same parts. */
  lemma RewardPays(base: Columns, live: Columns, stx: SignedTx)
    requires stx.tx.RewardMint?
    ensures var step, t := Apply(base, live, stx), stx.tx;
      && (step.outcome.Panicked? <==> t.total * 80 > U128_MAX)
      && (step.outcome.Panicked? || step.outcome == Applied(if t.total == 0 then 30_000 else 180_000))
      && (step.outcome.Applied? ==>
            && (forall a :: PartOf(t.total, t.payees, a) >= 0
                 && AccountAt(step.live.accounts, a) ==
                    Gains(AccountAt(live.accounts, a), PartOf(t.total, t.payees, a)))
            && step.live == live.(accounts := step.live.accounts))
  {
    var t := stx.tx;
    hide SplitCredited, AccountAt, PartOf;
    forall a
      ensures PartOf(t.total, t.payees, a) >= 0 && (t.total == 0 ==> PartOf(t.total, t.payees, a) == 0)
      ensures AccountAt(SplitCredited(live.accounts, t.total, t.payees), a) ==
         Gains(AccountAt(live.accounts, a), PartOf(t.total, t.payees, a))
    {
      SplitPays(live.accounts, t.total, t.payees, a);
      NoPart(t.payees, a);
    }
  }

  /** Where the payees differ each has exactly its fraction. */
  lemma DistinctParts(total: u128, p: Payees)
    requires p.compute != p.verifier && p.verifier != p.treasury && p.treasury != p.compute
    ensures PartOf(total, p, p.compute) == total * 80 / 100 + total * 5 / 100
    ensures PartOf(total, p, p.verifier) == total * 7 / 100
    ensures PartOf(total, p, p.treasury) ==
      total - total * 80 / 100 - total * 7 / 100 - total * 3 / 100 - total * 5 / 100
    ensures forall a :: a !in {p.compute, p.verifier, p.treasury} ==> PartOf(total, p, a) == 0
  {
  }

  // ----- Stake operations -----

  /** Every position but those of `changed` is as before. */
  ghost predicate StakesKept(before: Stakes, after: Stakes, changed: set<StakeKey>) {
    forall k :: k !in changed ==> (k in after <==> k in before) && (k in before ==> after[k] == before[k])
  }

  /** The position `k` is `e`; a position worth nothing is not stored. */
  predicate Holds(stakes: Stakes, k: StakeKey, e: StakeEntry) {
    if e.amount == 0 then k !in stakes else k in stakes && stakes[k] == e
  }

  lemma PutStakeReads(stakes: Stakes, k: StakeKey, e: StakeEntry)
    ensures Holds(PutStake(stakes, k, e), k, e) && StakesKept(stakes, PutStake(stakes, k, e), {k})
  {
  }

  /** What adding `amount` at `height` makes of a position: an open one keeps its bonding height. */
  predicate ToppedUp(stakes: Stakes, after: Stakes, k: StakeKey, amount: u128, height: u64) {
    Holds(after, k,
      if k in stakes then StakeEntry(Min(stakes[k].amount + amount, U128_MAX), stakes[k].bondedAt)
      else StakeEntry(amount, height))
  }

  lemma TopUpReads(stakes: Stakes, k: StakeKey, amount: u128, height: u64)
    ensures ToppedUp(stakes, TopUp(stakes, k, amount, height), k, amount, height)
    ensures StakesKept(stakes, TopUp(stakes, k, amount, height), {k})
  {
  }

  /** The least a position may hold outside the bootstrap window, in units of 10^-9 ARK. */
  function LeastStake(role: StakeRole): nat {
    match role
    case Validator => 50_000_000_000_000
    case Router => 8_000_000_000_000
    case Verifier => 10_000_000_000_000
    case Compute => 5_000_000_000_000
  }

  lemma StakeStep(base: Columns, live: Columns, stx: SignedTx)
    requires stx.tx.Stake?
    ensures Apply(base, live, stx) == OnStakes(live,
      StakeOpApplied(InBootstrap(live.height, |base.validators|), StakesOf(live), OfSigner(stx.signer), stx.tx.op,
        live.height))
  {
    hide StakeOpApplied, InBootstrap, OnStakes, StakesOf;
  }

  lemma StakeColumns(live: Columns)
    ensures forall d :: OnStakes(live, d).outcome == d.outcome
    ensures forall d :: OnStakes(live, d).live == live.(accounts := d.book.accounts, stakes := d.book.stakes,
      unbondings := d.book.unbondings, nextUnbondId := d.book.nextUnbondId)
    ensures StakesOf(live) == StakeBook(live.accounts, live.stakes, live.unbondings, live.nextUnbondId)
  {
  }

  lemma LeastIs(role: StakeRole)
    ensures BaseMinStake(role) == LeastStake(role)
  {
  }

  /** A deposit lands exactly when it names no delegator or its signer, leaves the position with the least
      for its role or falls in the bootstrap window, and is covered; it moves the amount into the position. */
  lemma DepositLandsExactly(base: Columns, live: Columns, stx: SignedTx)
    requires stx.tx.Stake? && stx.tx.op.Deposit?
    ensures var step, op, payer := Apply(base, live, stx), stx.tx.op, OfSigner(stx.signer);
      var k, was := StakeKey(op.node, op.role, op.pool, op.delegator), AccountAt(live.accounts, payer);
      var held := if k in live.stakes then live.stakes[k].amount else 0;
      var bootstrap := live.height < 15_552_000 && |base.validators| % 0x1_0000_0000 < 100;
      var fine := (op.delegator == None || op.delegator == Some(payer))
        && (bootstrap || Min(held + op.amount, U128_MAX) >= LeastStake(op.role)) && op.amount <= was.balance;
      if fine then
        && step.outcome == Applied(50_000)
        && AccountAt(step.live.accounts, payer) == Account(was.balance - op.amount, was.nonce)
        && OthersKept(live.accounts, step.live.accounts, {payer})
        && ToppedUp(live.stakes, step.live.stakes, k, op.amount, live.height)
        && StakesKept(live.stakes, step.live.stakes, {k})
        && step.live == live.(accounts := step.live.accounts, stakes := step.live.stakes)
      else step.outcome.Dropped? && step.live == live
  {
    hide Apply, OnStakes, StakesOf, Debit, AccountAt, TopUp, ToppedUp, StakesKept, OthersKept, BaseMinStake, LeastStake;
    var op, payer := stx.tx.op, OfSigner(stx.signer);
    if op.amount <= AccountAt(live.accounts, payer).balance {
      DebitReads(live.accounts, payer, op.amount);
    }
    TopUpReads(live.stakes, StakeKey(op.node, op.role, op.pool, op.delegator), op.amount, live.height);
    LeastIs(op.role);
    StakeStep(base, live, stx);
    StakeColumns(live);
  }

  /** What the signer may take from: its own delegation if there is one, else the self-stake. */
  function Source(stakes: Stakes, signer: Address, node: NodeId, role: StakeRole, pool: Option<PoolId>): StakeKey {
    if StakeKey(node, role, pool, Some(signer)) in stakes then StakeKey(node, role, pool, Some(signer))
    else StakeKey(node, role, pool, None)
  }

  lemma WithdrawStep(base: Columns, live: Columns, stx: SignedTx, book: StakeBook)
    requires stx.tx.Stake? && stx.tx.op.Withdraw?
    requires book == StakeBook(live.accounts, live.stakes, live.unbondings, live.nextUnbondId)
    ensures var op := stx.tx.op;
      var d := Withdrawn(book, OfSigner(stx.signer), op.node, op.role, op.pool, op.amount, live.height);
      Apply(base, live, stx) == Step(live.(accounts := d.book.accounts, stakes := d.book.stakes,
        unbondings := d.book.unbondings, nextUnbondId := d.book.nextUnbondId), d.outcome)
  {
    hide Apply, OnStakes, StakesOf, Withdrawn;
    StakeStep(base, live, stx);
    StakeColumns(live);
  }

  lemma WithdrawBook(book: StakeBook, signer: Address, node: NodeId, role: StakeRole, pool: Option<PoolId>,
      amount: u128, height: u64)
    ensures var d, k := Withdrawn(book, signer, node, role, pool, amount, height),
        Source(book.stakes, signer, node, role, pool);
      var fine := k in book.stakes && amount <= book.stakes[k].amount;
      if fine && height + 1_209_600 <= U64_MAX && book.nextUnbondId < U64_MAX then
        && d.outcome == Applied(50_000)
        && Holds(d.book.stakes, k, StakeEntry(book.stakes[k].amount - amount, book.stakes[k].bondedAt))
        && StakesKept(book.stakes, d.book.stakes, {k})
        && d.book == book.(stakes := d.book.stakes, nextUnbondId := book.nextUnbondId + 1,
             unbondings := book.unbondings[UnbondKey(node, book.nextUnbondId) :=
               UnbondingEntry(role, pool, k.delegator, amount, height, height + 1_209_600)])
      else (if fine then d.outcome.Panicked? else d.outcome.Dropped?) && d.book == book
  {
    hide PutStake, Holds, StakesKept;
    var k := Source(book.stakes, signer, node, role, pool);
    if k in book.stakes && amount <= book.stakes[k].amount {
      PutStakeReads(book.stakes, k, StakeEntry(book.stakes[k].amount - amount, book.stakes[k].bondedAt));
    }
  }

  /** A withdrawal lands exactly when the position holds the amount and neither the clock nor the counter is
      at its end; it moves the amount into an unbonding of 1,209,600 blocks under the next identifier. */
  lemma WithdrawLandsExactly(base: Columns, live: Columns, stx: SignedTx)
    requires stx.tx.Stake? && stx.tx.op.Withdraw?
    ensures var step, op := Apply(base, live, stx), stx.tx.op;
      var k := Source(live.stakes, OfSigner(stx.signer), op.node, op.role, op.pool);
      var fine := k in live.stakes && op.amount <= live.stakes[k].amount;
      if fine && live.height + 1_209_600 <= U64_MAX && live.nextUnbondId < U64_MAX then
        && step.outcome == Applied(50_000)
        && Holds(step.live.stakes, k, StakeEntry(live.stakes[k].amount - op.amount, live.stakes[k].bondedAt))
        && StakesKept(live.stakes, step.live.stakes, {k})
        && step.live == live.(stakes := step.live.stakes, nextUnbondId := live.nextUnbondId + 1,
             unbondings := live.unbondings[UnbondKey(op.node, live.nextUnbondId) :=
               UnbondingEntry(op.role, op.pool, k.delegator, op.amount, live.height, live.height + 1_209_600)])
      else (if fine then step.outcome.Panicked? else step.outcome.Dropped?) && step.live == live
  {
    hide Apply, Holds, StakesKept, Withdrawn, Source;
    var op := stx.tx.op;
    var book := StakeBook(live.accounts, live.stakes, live.unbondings, live.nextUnbondId);
    WithdrawStep(base, live, stx, book);
    WithdrawBook(book, OfSigner(stx.signer), op.node, op.role, op.pool, op.amount, live.height);
  }

  /** A completion lands exactly when the unbonding is due and names no delegator or the signer; it pays
      what is pending to the delegator, or else to the signer, and removes the unbonding. */
  lemma CompleteLandsExactly(base: Columns, live: Columns, stx: SignedTx)
    requires stx.tx.Stake? && stx.tx.op.Complete?
    ensures var step, signer, k := Apply(base, live, stx), OfSigner(stx.signer),
        UnbondKey(stx.tx.op.node, stx.tx.op.unbondId);
      if k in live.unbondings && live.height >= live.unbondings[k].completesAt
        && live.unbondings[k].delegator in {None, Some(signer)} then
        && step.outcome == Applied(50_000)
        && AccountAt(step.live.accounts, signer) == Gains(AccountAt(live.accounts, signer), live.unbondings[k].amount)
        && OthersKept(live.accounts, step.live.accounts, {signer})
        && step.live == live.(accounts := step.live.accounts, unbondings := live.unbondings - {k})
      else step.outcome.Dropped? && step.live == live
  {
    hide Apply, OnStakes, StakesOf, Credit, AccountAt, OthersKept;
    StakeStep(base, live, stx);
    StakeColumns(live);
    var signer, k := OfSigner(stx.signer), UnbondKey(stx.tx.op.node, stx.tx.op.unbondId);
    if k in live.unbondings {
      CreditReads(live.accounts, signer, live.unbondings[k].amount);
    }
  }

  lemma SourceKept(before: Stakes, drawn: Stakes, after: Stakes, k: StakeKey, to: StakeKey, left: StakeEntry,
      amount: u128, height: u64)
    requires Holds(drawn, k, left) && StakesKept(before, drawn, {k}) && k != to
    requires ToppedUp(drawn, after, to, amount, height) && StakesKept(drawn, after, {to})
    ensures Holds(after, k, left) && ToppedUp(before, after, to, amount, height) && StakesKept(before, after, {k, to})
  {
    assert to in drawn <==> to in before;
  }

  lemma RedelegateBook(book: StakeBook, signer: Address, source: NodeId, target: NodeId, role: StakeRole, amount: u128,
      height: u64)
    ensures var d, k := Redelegated(book, signer, source, target, role, amount, height),
        Source(book.stakes, signer, source, role, None);
      var to := StakeKey(target, role, None, k.delegator);
      if source != target && k in book.stakes && amount <= book.stakes[k].amount
        && height >= Min(book.stakes[k].bondedAt + 86_400, U64_MAX) then
        && d.outcome == Applied(50_000)
        && Holds(d.book.stakes, k, StakeEntry(book.stakes[k].amount - amount, book.stakes[k].bondedAt))
        && ToppedUp(book.stakes, d.book.stakes, to, amount, height)
        && StakesKept(book.stakes, d.book.stakes, {k, to})
        && d.book == book.(stakes := d.book.stakes)
      else d.outcome.Dropped? && d.book == book
  {
    hide PutStake, TopUp, Holds, ToppedUp, StakesKept;
    var k := Source(book.stakes, signer, source, role, None);
    var to := StakeKey(target, role, None, k.delegator);
    if source != target && k in book.stakes && amount <= book.stakes[k].amount {
      var left := StakeEntry(book.stakes[k].amount - amount, book.stakes[k].bondedAt);
      var drawn := PutStake(book.stakes, k, left);
      PutStakeReads(book.stakes, k, left);
      TopUpReads(drawn, to, amount, height);
      SourceKept(book.stakes, drawn, TopUp(drawn, to, amount, height), k, to, left, amount, height);
    }
  }

  lemma RedelegateStep(base: Columns, live: Columns, stx: SignedTx, book: StakeBook)
    requires stx.tx.Stake? && stx.tx.op.Redelegate?
    requires book == StakeBook(live.accounts, live.stakes, live.unbondings, live.nextUnbondId)
    ensures var d := Redelegated(book, OfSigner(stx.signer), stx.tx.op.source, stx.tx.op.target, stx.tx.op.role,
        stx.tx.op.amount, live.height);
      Apply(base, live, stx) == Step(live.(accounts := d.book.accounts, stakes := d.book.stakes,
        unbondings := d.book.unbondings, nextUnbondId := d.book.nextUnbondId), d.outcome)
  {
    hide Apply, OnStakes, StakesOf, Redelegated;
    StakeStep(base, live, stx);
    StakeColumns(live);
  }

  /** A redelegation lands exactly when it names two nodes, the position outside any pool holds the amount
      and was opened 86,400 blocks ago; the amount moves to the same delegator's position with the target. */
  lemma RedelegateLandsExactly(base: Columns, live: Columns, stx: SignedTx)
    requires stx.tx.Stake? && stx.tx.op.Redelegate?
    ensures var step, op := Apply(base, live, stx), stx.tx.op;
      var k := Source(live.stakes, OfSigner(stx.signer), op.source, op.role, None);
      var to := StakeKey(op.target, op.role, None, k.delegator);
      if op.source != op.target && k in live.stakes && op.amount <= live.stakes[k].amount
        && live.height >= Min(live.stakes[k].bondedAt + 86_400, U64_MAX) then
        && step.outcome == Applied(50_000)
        && Holds(step.live.stakes, k, StakeEntry(live.stakes[k].amount - op.amount, live.stakes[k].bondedAt))
        && ToppedUp(live.stakes, step.live.stakes, to, op.amount, live.height)
        && StakesKept(live.stakes, step.live.stakes, {k, to})
        && step.live == live.(stakes := step.live.stakes)
      else step.outcome.Dropped? && step.live == live
  {
    hide Apply, Holds, ToppedUp, StakesKept, Redelegated, Source;
    var op, signer := stx.tx.op, OfSigner(stx.signer);
    var book := StakeBook(live.accounts, live.stakes, live.unbondings, live.nextUnbondId);
    RedelegateStep(base, live, stx, book);
    RedelegateBook(book, signer, op.source, op.target, op.role, op.amount, live.height);
  }

  // ----- Models, proposals and votes -----

  /** A registration lands exactly when its name is not empty and not committed and a deposit of at
      least 10,000 ARK is covered. */
  lemma ModelLandsExactly(base: Columns, live: Columns, stx: SignedTx)
    requires stx.tx.RegisterModel?
    ensures var step, t := Apply(base, live, stx), stx.tx;
      var was := AccountAt(live.accounts, t.registrar);
      var fine := t.manifest.modelId != "" && t.manifest.modelId !in base.models
        && 10_000_000_000_000 <= t.deposit <= was.balance;
      if fine then
        && step.outcome == Applied(200_000)
        && AccountAt(step.live.accounts, t.registrar) == Account(was.balance - t.deposit, was.nonce)
        && OthersKept(live.accounts, step.live.accounts, {t.registrar})
        && step.live == live.(accounts := step.live.accounts,
             models := live.models[t.manifest.modelId := t.manifest])
      else step.outcome.Dropped? && step.live == live
  {
    hide Debit, AccountAt, OthersKept;
    if stx.tx.deposit <= AccountAt(live.accounts, stx.tx.registrar).balance {
      DebitReads(live.accounts, stx.tx.registrar, stx.tx.deposit);
    }
  }

  /** A proposal lands exactly when a deposit of at least 10,000 ARK is covered by its signer, who pays
      it; it opens in discussion under the committed counter. */
  lemma ProposalLandsExactly(base: Columns, live: Columns, stx: SignedTx)
    requires stx.tx.Propose?
    ensures var step, t, payer := Apply(base, live, stx), stx.tx.proposal, OfSigner(stx.signer);
      var was := AccountAt(live.accounts, payer);
      var fine := 10_000_000_000_000 <= t.deposit <= was.balance;
      if fine && base.nextProposalId < U64_MAX then
        && step.outcome == Applied(500_000)
        && AccountAt(step.live.accounts, payer) == Account(was.balance - t.deposit, was.nonce)
        && OthersKept(live.accounts, step.live.accounts, {payer})
        && step.live == live.(accounts := step.live.accounts,
             proposals := live.proposals[base.nextProposalId := ProposalRecord(t, Discussion, live.height)],
             nextProposalId := base.nextProposalId + 1)
      else (if fine then step.outcome.Panicked? else step.outcome.Dropped?) && step.live == live
  {
    hide Debit, AccountAt, OthersKept;
    if stx.tx.proposal.deposit <= AccountAt(live.accounts, OfSigner(stx.signer)).balance {
      DebitReads(live.accounts, OfSigner(stx.signer), stx.tx.proposal.deposit);
    }
  }

  /** A vote lands exactly on a committed proposal in voting on which its voter has no committed vote,
      and records its choice. */
  lemma VoteLandsExactly(base: Columns, live: Columns, stx: SignedTx)
    requires stx.tx.Vote?
    ensures var step, t := Apply(base, live, stx), stx.tx;
      var open := t.proposalId in base.proposals && base.proposals[t.proposalId].phase == Voting;
      if open && VoteKey(t.proposalId, t.voter) !in base.votes then
        step == Step(live.(votes := live.votes[VoteKey(t.proposalId, t.voter) := t.choice]), Applied(30_000))
      else step.outcome.Dropped? && step.live == live
  {
  }

  // ----- Receipts -----

  predicate Listed(receipts: seq<Receipt>, j: JobId) {
    exists i :: 0 <= i < |receipts| && receipts[i].job == j
  }

  predicate FreshJobs(seen: map<JobId, u64>, receipts: seq<Receipt>) {
    && (forall i :: 0 <= i < |receipts| ==> receipts[i].job !in seen)
    && (forall i, k :: 0 <= i < k < |receipts| ==> receipts[i].job != receipts[k].job)
  }

  lemma ListedCons(first: Receipt, rest: seq<Receipt>)
    ensures forall j :: Listed([first] + rest, j) <==> first.job == j || Listed(rest, j)
  {
    var all := [first] + rest;
    forall j | Listed(rest, j)
      ensures Listed(all, j)
    {
      var i :| 0 <= i < |rest| && rest[i].job == j;
      assert all[i + 1].job == j;
    }
    assert all[0] == first;
    assert forall i :: 1 <= i < |all| ==> all[i] == rest[i - 1];
  }

  lemma FreshSplits(seen: map<JobId, u64>, first: Receipt, rest: seq<Receipt>, height: u64)
    ensures FreshJobs(seen, [first] + rest) <==> first.job !in seen && FreshJobs(seen[first.job := height], rest)
  {
    var all := [first] + rest;
    assert all[0] == first;
    if FreshJobs(seen, all) {
      forall i | 0 <= i < |rest|
        ensures rest[i] == all[i + 1] && rest[i].job !in seen[first.job := height]
      {
        assert all[0].job != all[i + 1].job;
      }
    }
    if first.job !in seen && FreshJobs(seen[first.job := height], rest) {
      forall i, k | 0 <= i < k < |all|
        ensures all[i].job != all[k].job
      {
        assert all[k] == rest[k - 1] && (i > 0 ==> all[i] == rest[i - 1]);
      }
    }
  }

  /** The marks after the jobs of `receipts` were marked at `height`. */
  ghost predicate Marks(seen: map<JobId, u64>, marked: map<JobId, u64>, receipts: seq<Receipt>, height: u64) {
    && (forall j :: j in marked <==> j in seen || Listed(receipts, j))
    && (forall j :: Listed(receipts, j) ==> marked[j] == height)
    && (forall j :: j in seen && !Listed(receipts, j) ==> marked[j] == seen[j])
  }

  lemma MarksCons(seen: map<JobId, u64>, marked: map<JobId, u64>, first: Receipt, rest: seq<Receipt>, height: u64)
    requires Marks(seen[first.job := height], marked, rest, height)
    ensures Marks(seen, marked, [first] + rest, height)
  {
    ListedCons(first, rest);
    hide Listed;
  }

  /** Marking goes through exactly for distinct jobs not marked before, and then marks those. */
  lemma {:induction false} MarksExactly(seen: map<JobId, u64>, receipts: seq<Receipt>, height: u64)
    ensures MarkReceipts(seen, receipts, height).1.None? <==> FreshJobs(seen, receipts)
    ensures FreshJobs(seen, receipts) ==> Marks(seen, MarkReceipts(seen, receipts, height).0, receipts, height)
    decreases |receipts|
  {
    if receipts != [] {
      var first, rest := receipts[0], receipts[1..];
      assert receipts == [first] + rest;
      FreshSplits(seen, first, rest, height);
      hide FreshJobs, Marks;
      if first.job !in seen {
        MarksExactly(seen[first.job := height], rest, height);
        if FreshJobs(seen[first.job := height], rest) {
          MarksCons(seen, MarkReceipts(seen[first.job := height], rest, height).0, first, rest, height);
        }
      }
    }
  }

  /** A batch lands exactly when it is not empty, carries the root of its receipts and names distinct
      jobs never marked. `leaves` are the encodings of its receipts. */
  lemma BatchLandsExactly(base: Columns, live: Columns, stx: SignedTx, leaves: seq<seq<u8>>)
    requires stx.tx.AnchorReceipts? && |leaves| == |stx.tx.batch.receipts|
    requires forall i :: 0 <= i < |leaves| ==> leaves[i] == stx.tx.batch.receipts[i].encoding
    ensures var step, b := Apply(base, live, stx), stx.tx.batch;
      if b.receipts != [] && Merkle.Root(leaves) == b.merkleRoot && FreshJobs(live.receipts, b.receipts) then
        step.outcome == Applied(Min(20_000 * |b.receipts|, U64_MAX))
      else step.outcome.Dropped?
  {
    var b := stx.tx.batch;
    assert ReceiptLeaves(b.receipts) == leaves;
    MarksExactly(live.receipts, b.receipts, live.height);
    hide MarkReceipts, FreshJobs, QueueRewards, Marks, Merkle.Root, InBootstrap;
  }

  /** Then exactly its jobs are marked with the height, other marks stay, and only marks and, in the
      bootstrap window, queued rewards change. */
  lemma BatchMarks(base: Columns, live: Columns, stx: SignedTx)
    requires stx.tx.AnchorReceipts? && Apply(base, live, stx).outcome.Applied?
    ensures var after, receipts := Apply(base, live, stx).live, stx.tx.batch.receipts;
      && FreshJobs(live.receipts, receipts)
      && Marks(live.receipts, after.receipts, receipts, live.height)
      && after == live.(receipts := after.receipts, pendingRewards := after.pendingRewards)
      && (!InBootstrap(live.height, |base.validators|) ==> after.pendingRewards == live.pendingRewards)
  {
    MarksExactly(live.receipts, stx.tx.batch.receipts, live.height);
    hide MarkReceipts, FreshJobs, QueueRewards, Marks, Merkle.Root, InBootstrap;
  }

  lemma {:induction false} QueuesEach(pending: map<JobId, PendingReward>, receipts: seq<Receipt>, epoch: u64)
    requires forall i, k :: 0 <= i < k < |receipts| ==> receipts[i].job != receipts[k].job
    ensures var after := QueueRewards(pending, receipts, epoch);
      && (forall j :: j in after <==> j in pending || Listed(receipts, j))
      && (forall j :: j in pending && !Listed(receipts, j) ==> after[j] == pending[j])
      && (forall i :: 0 <= i < |receipts| ==> after[receipts[i].job] == BootstrapReward(receipts[i], epoch))
    decreases |receipts|
  {
    if receipts != [] {
      var first, rest := receipts[0], receipts[1..];
      assert receipts == [first] + rest;
      QueuesEach(pending[first.job := BootstrapReward(first, epoch)], rest, epoch);
      ListedCons(first, rest);
      forall i | 1 <= i < |receipts|
        ensures receipts[i] == rest[i - 1] && receipts[i].job != first.job
      {
      }
      assert !Listed(rest, first.job);
    }
  }

  /** In the bootstrap window each receipt queues a reward for the epoch by its tokens, to its compute
      node, the treasury and its router, at 1.5 times for attested nodes. */
  lemma BatchQueues(base: Columns, live: Columns, stx: SignedTx)
    requires stx.tx.AnchorReceipts? && Apply(base, live, stx).outcome.Applied?
    requires live.height < 15_552_000 && |base.validators| < 100
    ensures var after, receipts := Apply(base, live, stx).live, stx.tx.batch.receipts;
      && (forall j :: j in after.pendingRewards <==> j in live.pendingRewards || Listed(receipts, j))
      && (forall j :: j in live.pendingRewards && !Listed(receipts, j) ==>
            after.pendingRewards[j] == live.pendingRewards[j])
      && (forall i :: 0 <= i < |receipts| ==>
            after.pendingRewards[receipts[i].job] == PendingReward(receipts[i].outputTokens, 0, live.height / 3_600,
              OfNode(receipts[i].computeNode), OfTreasuryTag, OfNode(receipts[i].routerNode), OfTreasuryTag,
              if receipts[i].teeVerified then 15_000 else 10_000, 10_000))
  {
    hide MarkReceipts, QueueRewards, Listed, Marks, Merkle.Root;
    BatchMarks(base, live, stx);
    QueuesEach(live.pendingRewards, stx.tx.batch.receipts, live.height / 3_600);
  }

  // ----- Registries -----

  /** A gateway is recorded exactly when its address has 1 to 512 bytes and, if it claims https, starts
      with "https://"; the record replaces the node's earlier one. */
  lemma GatewayLandsExactly(base: Columns, live: Columns, stx: SignedTx)
    requires stx.tx.RegisterGateway?
    ensures var step, t := Apply(base, live, stx), stx.tx;
      var gateways := live.registry.gateways[t.node := GatewayEntry(t.operator, t.url, t.https, live.height)];
      if 1 <= |t.url| <= 512 && (t.https ==> [0x68, 0x74, 0x74, 0x70, 0x73, 0x3A, 0x2F, 0x2F] <= t.url) then
        step == Step(live.(registry := live.registry.(gateways := gateways)), Applied(100_000))
      else step.outcome.Dropped? && step.live == live
  {
  }

  /** Removing a gateway always lands and removes that record only. */
  lemma GatewayLeaves(base: Columns, live: Columns, stx: SignedTx)
    requires stx.tx.UnregisterGateway?
    ensures Apply(base, live, stx) == Step(
      live.(registry := live.registry.(gateways := live.registry.gateways - {stx.tx.node})), Applied(50_000))
  {
  }

  /** A capability that lands is recorded under its node. */
  lemma TeeRecorded(base: Columns, live: Columns, stx: SignedTx)
    requires stx.tx.RegisterTee?
    ensures var step, t := Apply(base, live, stx), stx.tx;
      if step.outcome.Applied? then
        && step.outcome == Applied(200_000)
        && step.live == live.(registry := live.registry.(tees := live.registry.tees[t.node := t.capability]))
      else step.live == live && !step.outcome.Panicked?
  {
    hide QuoteFault;
  }
}
