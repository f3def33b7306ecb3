/**
 Account nonces over transaction lists and whole chains: what an account has spent is
 exactly what its nonce counts.
 */
module Nonces {
  import opened Numeric
  import opened Types
  import opened LedgerSpec
  import opened Store
  import Replay

  /** The account and nonce a transaction uses up when it applies. */
  function Spent(tx: Transaction): Option<(Address, u64)> {
    match tx
    case Transfer(from, _, _, nonce, _) => Some((from, nonce))
    case EscrowLock(user, _, _, nonce, _) => Some((user, nonce))
    case _ => None
  }

  function NonceOf(accounts: Accounts, a: Address): nat {
    AccountAt(accounts, a).nonce
  }

  predicate SpendsFrom(tx: Transaction, a: Address) {
    Spent(tx).Some? && Spent(tx).value.0 == a
  }

  function Bump(tx: Transaction, a: Address): nat {
    if SpendsFrom(tx, a) then 1 else 0
  }

  /** Neither adds an empty account nor touches the nonce of `a`. */
  ghost predicate Harmless(before: Accounts, after: Accounts, a: Address) {
    NonceOf(after, a) == NonceOf(before, a) && (NoEmptyAccounts(before) ==> NoEmptyAccounts(after))
  }

  lemma CreditHarmless(accounts: Accounts, to: Address, amount: u128, a: Address)
    ensures Harmless(accounts, Credit(accounts, to, amount), a)
    ensures Harmless(accounts, CreditIfPositive(accounts, to, amount), a)
  {
  }

  lemma DebitHarmless(accounts: Accounts, from: Address, amount: u128, a: Address)
    requires amount <= AccountAt(accounts, from).balance
    ensures Harmless(accounts, Debit(accounts, from, amount), a)
  {
  }

  lemma SpendBumps(accounts: Accounts, from: Address, amount: u128, a: Address)
    requires amount <= AccountAt(accounts, from).balance && AccountAt(accounts, from).nonce < U64_MAX
    ensures NonceOf(Spend(accounts, from, amount), a) == NonceOf(accounts, a) + if a == from then 1 else 0
    ensures NoEmptyAccounts(accounts) ==> NoEmptyAccounts(Spend(accounts, from, amount))
  {
  }

  lemma SplitHarmless(accounts: Accounts, total: u128, p: Payees, a: Address)
    ensures Harmless(accounts, SplitCredited(accounts, total, p), a)
  {
    hide CreditIfPositive, NoEmptyAccounts, NonceOf;
    SplitAddsUp(total);
    var s := SplitOf(total);
    var paidCompute := CreditIfPositive(accounts, p.compute, s.compute + s.delegators);
    var paidVerifier := CreditIfPositive(paidCompute, p.verifier, s.verifier);
    CreditHarmless(accounts, p.compute, s.compute + s.delegators, a);
    CreditHarmless(paidCompute, p.verifier, s.verifier, a);
    CreditHarmless(paidVerifier, p.treasury, s.treasury, a);
  }

  lemma StakeOpHarmless(bootstrap: bool, book: StakeBook, sender: Address, op: StakeOp, height: u64, a: Address)
    ensures Harmless(book.accounts, StakeOpApplied(bootstrap, book, sender, op, height).book.accounts, a)
  {
    hide Credit, Debit, NoEmptyAccounts, NonceOf, BelowMinimum, SourceKey, TopUp, DrawDown;
    match op
    case Deposit(_, _, _, amount, _) =>
      if amount <= AccountAt(book.accounts, sender).balance {
        DebitHarmless(book.accounts, sender, amount, a);
      }
    case Complete(node, id) =>
      var key := UnbondKey(node, id);
      if key in book.unbondings {
        var e := book.unbondings[key];
        CreditHarmless(book.accounts, Holder(e.delegator, sender), e.amount, a);
      }
    case _ =>
  }

  lemma TransferNonce(baseFee: u128, accounts: Accounts, from: Address, to: Address, amount: u128, nonce: u64, fee: u64,
      a: Address)
    requires Transferred(baseFee, accounts, from, to, amount, nonce, fee).outcome.Applied?
    ensures var after := Transferred(baseFee, accounts, from, to, amount, nonce, fee).book;
      && NonceOf(after, a) == NonceOf(accounts, a) + (if from == a then 1 else 0)
      && AccountAt(accounts, from).nonce == nonce
      && (NoEmptyAccounts(accounts) ==> NoEmptyAccounts(after))
  {
    hide Credit, Spend, NoEmptyAccounts, NonceOf;
    var total := amount + SatMul128(fee, baseFee);
    SpendBumps(accounts, from, total, a);
    CreditHarmless(Spend(accounts, from, total), to, amount, a);
  }

  lemma LockNonce(committed: Escrows, book: EscrowBook, user: Address, job: JobId, amount: u128, nonce: u64, fee: u64,
      height: u64,
    a: Address)
    requires Locking(committed, book, user, job, amount, nonce, fee, height).outcome.Applied?
    ensures var after := Locking(committed, book, user, job, amount, nonce, fee, height).book.accounts;
      && NonceOf(after, a) == NonceOf(book.accounts, a) + (if user == a then 1 else 0)
      && AccountAt(book.accounts, user).nonce == nonce
      && (NoEmptyAccounts(book.accounts) ==> NoEmptyAccounts(after))
  {
    hide Spend, NoEmptyAccounts, NonceOf;
    SpendBumps(book.accounts, user, SatAdd128(amount, fee), a);
  }

  lemma RegisteredHarmless(committed: map<string, Manifest>, book: ModelBook, manifest: Manifest, registrar: Address,
      deposit: u128, a: Address)
    ensures Harmless(book.accounts, ModelRegistered(committed, book, manifest, registrar, deposit).book.accounts, a)
  {
    hide Debit, NoEmptyAccounts, NonceOf;
    if deposit <= AccountAt(book.accounts, registrar).balance {
      DebitHarmless(book.accounts, registrar, deposit, a);
    }
  }

  lemma ProposedHarmless(id: u64, book: GovBook, sender: Address, proposal: Proposal, height: u64, a: Address)
    ensures Harmless(book.accounts, Proposed(id, book, sender, proposal, height).book.accounts, a)
  {
    hide Debit, NoEmptyAccounts, NonceOf;
    if proposal.deposit <= AccountAt(book.accounts, sender).balance {
      DebitHarmless(book.accounts, sender, proposal.deposit, a);
    }
  }

  lemma Unchanged(accounts: Accounts, a: Address)
    ensures Harmless(accounts, accounts, a)
  {
  }

  lemma VotedHarmless(base: Columns, book: GovBook, id: u64, voter: Address, choice: VoteChoice, a: Address)
    ensures Harmless(book.accounts, Voted(base.proposals, base.votes, book, id, voter, choice).book.accounts, a)
  {
  }

  lemma SettlingHarmless(committed: Escrows, book: EscrowBook, job: JobId, p: Payees, height: u64, a: Address)
    ensures Harmless(book.accounts, Settling(committed, book, job, p, height).book.accounts, a)
  {
    hide SplitCredited, NoEmptyAccounts, NonceOf;
    if job in committed {
      SplitHarmless(book.accounts, committed[job].amount, p, a);
    }
  }

  ghost predicate StepsNonce(live: Accounts, after: Accounts, tx: Transaction, a: Address) {
    && NonceOf(after, a) == NonceOf(live, a) + Bump(tx, a)
    && (SpendsFrom(tx, a) ==> Spent(tx).value.1 == NonceOf(live, a))
    && (NoEmptyAccounts(live) ==> NoEmptyAccounts(after))
  }

  lemma StakesAfter(live: Columns)
    ensures forall d :: OnStakes(live, d).live.accounts == d.book.accounts
  {
  }

  lemma EscrowsAfter(live: Columns)
    ensures forall d :: OnEscrows(live, d).live.accounts == d.book.accounts
    ensures forall d :: OnReceipts(live, d).live.accounts == live.accounts
  {
  }

  lemma GovAfter(live: Columns)
    ensures forall d :: OnModels(live, d).live.accounts == d.book.accounts
    ensures forall d :: OnGov(live, d).live.accounts == d.book.accounts
    ensures forall d :: OnRegistry(live, d).live.accounts == live.accounts
  {
  }

  /** The accounts a handler leaves are those of its book. */
  lemma AccountsAfter(live: Columns)
    ensures forall d :: OnStakes(live, d).live.accounts == d.book.accounts
    ensures forall d :: OnEscrows(live, d).live.accounts == d.book.accounts
    ensures forall d :: OnReceipts(live, d).live.accounts == live.accounts
    ensures forall d :: OnModels(live, d).live.accounts == d.book.accounts
    ensures forall d :: OnGov(live, d).live.accounts == d.book.accounts
    ensures forall d :: OnAccounts(live, d).live.accounts == d.book
    ensures forall d :: OnRegistry(live, d).live.accounts == live.accounts
    ensures StakesOf(live).accounts == EscrowsOf(live).accounts == ModelsOf(live).accounts == GovOf(live).accounts ==
      live.accounts
  {
    StakesAfter(live);
    EscrowsAfter(live);
    GovAfter(live);
    hide OnStakes, OnEscrows, OnReceipts, OnModels, OnGov, OnRegistry;
  }

  /** Transactions that spend no nonce leave every nonce alone. */
  lemma OtherNonce(base: Columns, live: Columns, stx: SignedTx, a: Address)
    requires Apply(base, live, stx).outcome.Applied? && Spent(stx.tx).None?
    ensures Harmless(live.accounts, Apply(base, live, stx).live.accounts, a)
  {
    hide StakeOpApplied, ModelRegistered, Proposed, Voted, Settling, Locking, Transferred, Anchored, Disputed,
      InBootstrap, Harmless;
    hide OnRegistry, TeeRegistered, GatewayRegistered, GatewayRemoved;
    hide SplitCredited, OnAccounts, OnStakes, OnEscrows, OnReceipts, OnModels, OnGov, StakesOf, EscrowsOf, ModelsOf,
      GovOf;
    AccountsAfter(live);
    var h := live.height;
    match stx.tx
    case Stake(op) =>
      StakeOpHarmless(InBootstrap(h, |base.validators|), StakesOf(live), OfSigner(stx.signer), op, h, a);
    case RegisterModel(manifest, registrar, deposit) =>
      RegisteredHarmless(base.models, ModelsOf(live), manifest, registrar, deposit, a);
    case Propose(proposal) => ProposedHarmless(base.nextProposalId, GovOf(live), OfSigner(stx.signer), proposal, h, a);
    case Vote(id, voter, choice) => VotedHarmless(base, GovOf(live), id, voter, choice, a);
    case EscrowSettle(job, p) => SettlingHarmless(base.escrows, EscrowsOf(live), job, p, h, a);
    case RewardMint(_, total, p) =>
      SplitHarmless(live.accounts, total, p, a);
      Unchanged(live.accounts, a);
    case _ => Unchanged(live.accounts, a);
  }

  /** One applied transaction: the nonce of each account moves by one if the transaction
      spends from it, and then it carried exactly the account's nonce; else it stays. */
  lemma StepNonce(base: Columns, live: Columns, stx: SignedTx, a: Address)
    requires Apply(base, live, stx).outcome.Applied?
    ensures StepsNonce(live.accounts, Apply(base, live, stx).live.accounts, stx.tx, a)
  {
    hide Transferred, Locking, NoEmptyAccounts;
    match stx.tx
    case Transfer(from, to, amount, nonce, fee) => TransferNonce(base.baseFee, live.accounts, from, to, amount, nonce,
      fee, a);
    case EscrowLock(user, job, amount, nonce, fee) =>
      LockNonce(base.escrows, EscrowsOf(live), user, job, amount, nonce, fee, live.height, a);
    case _ => OtherNonce(base, live, stx, a);
  }

  /** How many of the transactions spend from `a`. */
  function Spends(txs: seq<SignedTx>, a: Address): nat {
    if txs == [] then 0 else Spends(txs[..|txs| - 1], a) + Bump(txs[|txs| - 1].tx, a)
  }

  /** The spends from `a` carry consecutive nonces starting at `first`: no gap, no repeat. */
  predicate Consecutive(txs: seq<SignedTx>, a: Address, first: nat) {
    forall i :: 0 <= i < |txs| && SpendsFrom(txs[i].tx, a) ==> Spent(txs[i].tx).value.1 == first + Spends(txs[..i], a)
  }

  lemma {:induction false} SpendsConcat(xs: seq<SignedTx>, ys: seq<SignedTx>, a: Address)
    ensures Spends(xs + ys, a) == Spends(xs, a) + Spends(ys, a)
  {
    if ys == [] {
      assert xs + ys == xs;
    } else {
      assert (xs + ys)[..|xs + ys| - 1] == xs + ys[..|ys| - 1];
      SpendsConcat(xs, ys[..|ys| - 1], a);
    }
  }

  lemma {:induction false} ConsecutiveConcat(xs: seq<SignedTx>, ys: seq<SignedTx>, a: Address, first: nat)
    requires Consecutive(xs, a, first) && Consecutive(ys, a, first + Spends(xs, a))
    ensures Consecutive(xs + ys, a, first) && Spends(xs + ys, a) == Spends(xs, a) + Spends(ys, a)
  {
    forall i | 0 <= i < |xs + ys| && SpendsFrom((xs + ys)[i].tx, a)
      ensures Spent((xs + ys)[i].tx).value.1 == first + Spends((xs + ys)[..i], a)
    {
      if i < |xs| {
        assert (xs + ys)[..i] == xs[..i];
      } else {
        assert (xs + ys)[..i] == xs + ys[..i - |xs|];
        SpendsConcat(xs, ys[..i - |xs|], a);
      }
    }
    SpendsConcat(xs, ys, a);
  }

  lemma ConsecutiveOne(stx: SignedTx, a: Address, first: nat)
    requires SpendsFrom(stx.tx, a) ==> Spent(stx.tx).value.1 == first
    ensures Consecutive([stx], a, first) && Spends([stx], a) == Bump(stx.tx, a)
  {
    assert [stx][..0] == [];
  }

  lemma DroppedAccounts(base: Columns, live: Columns, stx: SignedTx)
    requires Apply(base, live, stx).outcome.Dropped?
    ensures Apply(base, live, stx).live.accounts == live.accounts
  {
    Replay.RejectedLeavesLedgerExactly(base, live, stx);
  }

  /** Over any transaction list: each nonce grows by exactly the number of applied spends. */
  lemma {:induction false} PassNonces(base: Columns, txs: seq<SignedTx>, a: Address)
    requires RunAll(base, txs).Pass?
    ensures var pass := RunAll(base, txs);
      && NonceOf(pass.live.accounts, a) == NonceOf(base.accounts, a) + Spends(pass.kept, a)
      && Consecutive(pass.kept, a, NonceOf(base.accounts, a))
      && (NoEmptyAccounts(base.accounts) ==> NoEmptyAccounts(pass.live.accounts))
  {
    if txs != [] {
      var pass, stx := RunAll(base, txs[..|txs| - 1]), txs[|txs| - 1];
      PassNonces(base, txs[..|txs| - 1], a);
      if Apply(base, pass.live, stx).outcome.Applied? {
        StepNonce(base, pass.live, stx, a);
        ConsecutiveOne(stx, a, NonceOf(pass.live.accounts, a));
        ConsecutiveConcat(pass.kept, [stx], a, NonceOf(base.accounts, a));
      } else {
        DroppedAccounts(base, pass.live, stx);
      }
    }
  }
}
