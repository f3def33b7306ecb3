/**
 Conservation over blocks, epoch passes and whole chains.
 */
module Conservation {
  import opened Numeric
  import opened MapSums
  import opened Types
  import opened LedgerSpec
  import opened Governance
  import opened Blocks
  import opened Supply
  import Lifecycle
  import Replay
  import Unbondings

  // ----- When a transaction conserves -----

  /** The two sides of a transaction's books agree exactly when no stale read is involved:
      its job holds no live lock, its settled escrow is still locked in full, and no
      proposal with an open deposit stands under its identifier. */
  predicate NoStaleRead(base: Columns, live: Columns, tx: Transaction) {
    match tx
    case EscrowLock(_, job, _, _, _) => job !in live.escrows || LockedIn(live.escrows[job]) == 0
    case EscrowSettle(job, _) =>
      job in base.escrows && base.escrows[job].amount == if job in live.escrows then LockedIn(live.escrows[job]) else 0
    case Propose(_) => base.nextProposalId !in live.proposals || OpenDeposit(live.proposals[base.nextProposalId]) == 0
    case _ => true
  }

  lemma SettledIsCommitted(base: Columns, live: Columns, stx: SignedTx)
    requires stx.tx.EscrowSettle? && Apply(base, live, stx).outcome.Applied?
    ensures stx.tx.job in base.escrows && base.escrows[stx.tx.job].state == Locked
  {
    hide OnEscrows, SplitCredited;
    TotalOfEscrows(live, Settling(base.escrows, EscrowsOf(live), stx.tx.job, stx.tx.payees, live.height));
  }

  lemma ConservesExactly(base: Columns, live: Columns, stx: SignedTx)
    requires Apply(base, live, stx).outcome.Applied? && IdsBelow(live.unbondings, live.nextUnbondId)
    requires Total(live) + MintedBy(stx.tx) + Max(Gap(base, live, stx.tx), 0) <= U128_MAX
    ensures Total(Apply(base, live, stx).live) + Burned(base, stx.tx) == Total(live) + MintedBy(stx.tx)
      <==> NoStaleRead(base, live, stx.tx)
  {
    hide Total, Apply, IdsBelow, Burned;
    StepTotal(base, live, stx);
    if stx.tx.EscrowSettle? {
      SettledIsCommitted(base, live, stx);
    }
  }

  /** Two transactions in a row on a fresh block, both applied. */
  lemma TwoApplied(base: Columns, first: SignedTx, second: SignedTx)
    requires var one := Apply(base, base, first); one.outcome.Applied? && Apply(base, one.live, second).outcome.Applied?
    ensures var pass := RunAll(base, [first, second]);
      pass.Pass? && pass.kept == [first, second] && pass.live == Apply(base, Apply(base, base, first).live, second).live
  {
    hide Apply;
    RunAllSnoc(base, [], first);
    RunAllSnoc(base, [first], second);
    assert [] + [first] == [first] && [first] + [second] == [first, second];
  }

  function LockTx(user: Address, job: JobId, amount: u128, nonce: u64): SignedTx {
    SignedTx(EscrowLock(user, job, amount, nonce, 0), PubKey(0), 0)
  }

  lemma LockApplies(base: Columns, live: Columns, user: Address, job: JobId, amount: u128)
    requires job !in base.escrows && 0 < amount <= AccountAt(live.accounts, user).balance
    requires AccountAt(live.accounts, user).nonce < U64_MAX
    ensures var step := Apply(base, live, LockTx(user, job, amount, AccountAt(live.accounts, user).nonce));
      && step.outcome.Applied?
      && AccountAt(step.live.accounts, user).balance == AccountAt(live.accounts, user).balance - amount
      && AccountAt(step.live.accounts, user).nonce == AccountAt(live.accounts, user).nonce + 1
      && job in step.live.escrows && LockedIn(step.live.escrows[job]) == amount
      && step.live.unbondings == live.unbondings && step.live.nextUnbondId == live.nextUnbondId
  {
  }

  /** A block can lock one job twice, and then the first lock's amount is lost. */
  lemma SecondLockLosesTheFirst(base: Columns, user: Address, job: JobId, amount: u128, nonce: u64)
    requires job !in base.escrows && Total(base) <= U128_MAX && IdsBelow(base.unbondings, base.nextUnbondId)
    requires 0 < amount && 2 * amount <= AccountAt(base.accounts, user).balance
    requires AccountAt(base.accounts, user).nonce == nonce < U64_MAX - 1
    ensures var txs := [LockTx(user, job, amount, nonce), LockTx(user, job, amount, nonce + 1)];
      var pass := RunAll(base, txs);
      pass.Pass? && pass.kept == txs && Total(pass.live) + amount == Total(base)
  {
    hide Apply, Total, AccountAt, IdsBelow;
    var first, second := LockTx(user, job, amount, nonce), LockTx(user, job, amount, nonce + 1);
    LockApplies(base, base, user, job, amount);
    var one := Apply(base, base, first).live;
    LockApplies(base, one, user, job, amount);
    TwoApplied(base, first, second);
    StepTotal(base, base, first);
    StepTotal(base, one, second);
  }

  function SettleTx(job: JobId, p: Payees): SignedTx {
    SignedTx(EscrowSettle(job, p), PubKey(0), 0)
  }

  lemma SettleApplies(base: Columns, live: Columns, job: JobId, p: Payees)
    requires job in base.escrows && base.escrows[job].state == Locked && !SplitOverflows(base.escrows[job].amount)
    ensures var step := Apply(base, live, SettleTx(job, p));
      && step.outcome.Applied?
      && job in step.live.escrows && LockedIn(step.live.escrows[job]) == 0
      && step.live.unbondings == live.unbondings && step.live.nextUnbondId == live.nextUnbondId
  {
    hide SplitCredited;
  }

  /** A block can settle one escrow twice, and then its amount is paid out twice. */
  lemma SecondSettlePaysAgain(base: Columns, job: JobId, p: Payees)
    requires job in base.escrows && base.escrows[job].state == Locked && !SplitOverflows(base.escrows[job].amount)
    requires Total(base) + base.escrows[job].amount <= U128_MAX && IdsBelow(base.unbondings, base.nextUnbondId)
    ensures var e, txs := base.escrows[job], [SettleTx(job, p), SettleTx(job, p)];
      var pass := RunAll(base, txs);
      pass.Pass? && pass.kept == txs && Total(pass.live) + 2 * SplitOf(e.amount).burned == Total(base) + e.amount
  {
    hide Apply, Total, IdsBelow, SplitOf;
    var tx := SettleTx(job, p);
    SettleApplies(base, base, job, p);
    var one := Apply(base, base, tx).live;
    SettleApplies(base, one, job, p);
    TwoApplied(base, tx, tx);
    StepTotal(base, base, tx);
    StepTotal(base, one, tx);
  }

  function ProposeTx(signer: PubKey, p: Proposal): SignedTx {
    SignedTx(Propose(p), signer, 0)
  }

  lemma ProposeApplies(base: Columns, live: Columns, signer: PubKey, p: Proposal)
    requires PROPOSAL_DEPOSIT <= p.deposit <= AccountAt(live.accounts, OfSigner(signer)).balance
      && base.nextProposalId < U64_MAX
    ensures var step := Apply(base, live, ProposeTx(signer, p));
      && step.outcome.Applied?
      && AccountAt(step.live.accounts, OfSigner(signer)).balance ==
        AccountAt(live.accounts, OfSigner(signer)).balance - p.deposit
      && base.nextProposalId in step.live.proposals
      && OpenDeposit(step.live.proposals[base.nextProposalId]) == p.deposit
      && step.live.unbondings == live.unbondings && step.live.nextUnbondId == live.nextUnbondId
  {
  }

  /** A block can take two proposals under one identifier, and then the first deposit is lost. */
  lemma SecondProposalLosesTheFirst(base: Columns, signer: PubKey, p: Proposal, q: Proposal)
    requires Lifecycle.FreshIds(base) && base.nextProposalId < U64_MAX && Total(base) <= U128_MAX
    requires IdsBelow(base.unbondings, base.nextUnbondId)
    requires p.deposit >= PROPOSAL_DEPOSIT && q.deposit >= PROPOSAL_DEPOSIT
    requires p.deposit + q.deposit <= AccountAt(base.accounts, OfSigner(signer)).balance
    ensures var txs := [ProposeTx(signer, p), ProposeTx(signer, q)];
      var pass := RunAll(base, txs);
      pass.Pass? && pass.kept == txs && Total(pass.live) + p.deposit == Total(base)
  {
    var first, second := ProposeTx(signer, p), ProposeTx(signer, q);
    ProposeApplies(base, base, signer, p);
    var one := Apply(base, base, first).live;
    ProposeApplies(base, one, signer, q);
    hide Apply, Total, AccountAt, IdsBelow;
    TwoApplied(base, first, second);
    StepTotal(base, base, first);
    StepTotal(base, one, second);
  }

  // ----- One escrow transaction per job, one proposal per block -----

  function EscrowJob(tx: Transaction): Option<JobId> {
    match tx
    case EscrowLock(_, job, _, _, _) => Some(job)
    case EscrowSettle(job, _) => Some(job)
    case _ => None
  }

  predicate SameKey(a: Transaction, b: Transaction) {
    (EscrowJob(a).Some? && EscrowJob(a) == EscrowJob(b)) || (a.Propose? && b.Propose?)
  }

  predicate OncePerKey(txs: seq<SignedTx>) {
    forall i, j :: 0 <= i < j < |txs| ==> !SameKey(txs[i].tx, txs[j].tx)
  }

  predicate SameEscrow(m: Escrows, n: Escrows, j: JobId) {
    (j in m <==> j in n) && (j in m ==> m[j] == n[j])
  }

  /** Escrows and proposals no transaction of the block has touched are as committed. */
  ghost predicate UntouchedStay(base: Columns, live: Columns, kept: seq<SignedTx>) {
    && (forall j :: (forall i :: 0 <= i < |kept| ==> EscrowJob(kept[i].tx) != Some(j)) ==>
      SameEscrow(base.escrows, live.escrows, j))
    && ((forall i :: 0 <= i < |kept| ==> !kept[i].tx.Propose?) ==> live.proposals == base.proposals)
  }

  ghost predicate SameEscrows(m: Escrows, n: Escrows, except: Option<JobId>) {
    forall j :: Some(j) != except ==> SameEscrow(m, n, j)
  }

  lemma BooksKeepEscrows(live: Columns)
    ensures forall d :: OnAccounts(live, d).live.escrows == live.escrows
    ensures forall d :: OnStakes(live, d).live.escrows == live.escrows
  {
  }

  lemma RecordsKeepEscrows(live: Columns)
    ensures forall d :: OnReceipts(live, d).live.escrows == live.escrows
    ensures forall d :: OnModels(live, d).live.escrows == live.escrows
    ensures forall d :: OnGov(live, d).live.escrows == live.escrows
  {
  }

  lemma RegistryKeepsEscrows(live: Columns)
    ensures forall d :: OnRegistry(live, d).live.escrows == live.escrows
  {
  }

  lemma OthersKeepEscrows(base: Columns, live: Columns, stx: SignedTx)
    requires EscrowJob(stx.tx).None?
    ensures Apply(base, live, stx).live.escrows == live.escrows
  {
    BooksKeepEscrows(live);
    RecordsKeepEscrows(live);
    RegistryKeepsEscrows(live);
    hide Transferred, ModelRegistered, Proposed, Voted, Anchored, Disputed, Minted, InBootstrap, StakeOpApplied;
    hide OnAccounts, OnStakes, OnReceipts, OnModels, OnGov, OnRegistry, TeeRegistered, GatewayRegistered,
      GatewayRemoved;
  }

  lemma EscrowBookEscrows(live: Columns, d: Done<EscrowBook>)
    ensures OnEscrows(live, d).live.escrows == d.book.escrows
  {
  }

  lemma LockingEscrows(committed: Escrows, b: EscrowBook, user: Address, job: JobId, amount: u128, nonce: u64, fee: u64,
      height: u64)
    ensures SameEscrows(b.escrows, Locking(committed, b, user, job, amount, nonce, fee, height).book.escrows, Some(job))
  {
    hide Spend, AccountAt;
  }

  lemma SettlingEscrows(committed: Escrows, b: EscrowBook, job: JobId, p: Payees, height: u64)
    ensures SameEscrows(b.escrows, Settling(committed, b, job, p, height).book.escrows, Some(job))
  {
    hide SplitCredited;
  }

  lemma StepEscrows(base: Columns, live: Columns, stx: SignedTx)
    ensures SameEscrows(live.escrows, Apply(base, live, stx).live.escrows, EscrowJob(stx.tx))
  {
    hide OnEscrows, Locking, Settling;
    var book, h := EscrowsOf(live), live.height;
    match stx.tx
    case EscrowLock(user, job, amount, nonce, fee) =>
      EscrowBookEscrows(live, Locking(base.escrows, book, user, job, amount, nonce, fee, h));
      LockingEscrows(base.escrows, book, user, job, amount, nonce, fee, h);
    case EscrowSettle(job, p) =>
      EscrowBookEscrows(live, Settling(base.escrows, book, job, p, h));
      SettlingEscrows(base.escrows, book, job, p, h);
    case _ => OthersKeepEscrows(base, live, stx);
  }

  lemma UntouchedAfter(base: Columns, live: Columns, kept: seq<SignedTx>, stx: SignedTx)
    requires UntouchedStay(base, live, kept) && Apply(base, live, stx).outcome.Applied?
    ensures UntouchedStay(base, Apply(base, live, stx).live, kept + [stx])
  {
    hide Apply;
    StepEscrows(base, live, stx);
    Lifecycle.StepProposals(base, live, stx);
    var more, after := kept + [stx], Apply(base, live, stx).live;
    assert more[|kept|] == stx;
    forall j | forall i :: 0 <= i < |more| ==> EscrowJob(more[i].tx) != Some(j)
      ensures SameEscrow(base.escrows, after.escrows, j)
    {
      forall i | 0 <= i < |kept| ensures EscrowJob(kept[i].tx) != Some(j) { assert more[i] == kept[i]; }
      assert SameEscrow(base.escrows, live.escrows, j) && SameEscrow(live.escrows, after.escrows, j);
    }
    if forall i :: 0 <= i < |more| ==> !more[i].tx.Propose? {
      forall i | 0 <= i < |kept| ensures !kept[i].tx.Propose? { assert more[i] == kept[i]; }
    }
  }

  lemma LockedIsNew(base: Columns, live: Columns, stx: SignedTx)
    requires stx.tx.EscrowLock? && Apply(base, live, stx).outcome.Applied?
    ensures stx.tx.job !in base.escrows
  {
    hide OnEscrows, Spend, AccountAt;
    var tx := stx.tx;
    TotalOfEscrows(live, Locking(base.escrows, EscrowsOf(live), tx.user, tx.job, tx.amount, tx.nonce, tx.fee,
      live.height));
  }

  /** The first transaction of a block on its key reads nothing stale. */
  lemma FirstOnKeyIsFresh(base: Columns, live: Columns, kept: seq<SignedTx>, stx: SignedTx)
    requires UntouchedStay(base, live, kept) && Lifecycle.FreshIds(base) && OncePerKey(kept + [stx])
    requires Apply(base, live, stx).outcome.Applied?
    ensures NoStaleRead(base, live, stx.tx)
  {
    hide Apply;
    var more := kept + [stx];
    forall i | 0 <= i < |kept|
      ensures !SameKey(kept[i].tx, stx.tx)
    {
      assert more[i] == kept[i] && more[|kept|] == stx;
    }
    match stx.tx
    case EscrowLock(_, job, _, _, _) =>
      LockedIsNew(base, live, stx);
      assert SameEscrow(base.escrows, live.escrows, job);
    case EscrowSettle(job, _) =>
      SettledIsCommitted(base, live, stx);
      assert SameEscrow(base.escrows, live.escrows, job);
    case _ =>
  }

  // ----- One block -----

  function BurnedIn(base: Columns, txs: seq<SignedTx>): nat {
    if txs == [] then 0 else BurnedIn(base, txs[..|txs| - 1]) + Burned(base, txs[|txs| - 1].tx)
  }

  function MintedIn(txs: seq<SignedTx>): nat {
    if txs == [] then 0 else MintedIn(txs[..|txs| - 1]) + MintedBy(txs[|txs| - 1].tx)
  }

  lemma SumsSnoc(base: Columns, txs: seq<SignedTx>, stx: SignedTx)
    ensures BurnedIn(base, txs + [stx]) == BurnedIn(base, txs) + Burned(base, stx.tx)
    ensures MintedIn(txs + [stx]) == MintedIn(txs) + MintedBy(stx.tx)
    ensures OncePerKey(txs + [stx]) ==> OncePerKey(txs)
  {
    assert (txs + [stx])[..|txs|] == txs;
    if OncePerKey(txs + [stx]) {
      forall i, j | 0 <= i < j < |txs|
        ensures !SameKey(txs[i].tx, txs[j].tx)
      {
        assert (txs + [stx])[i] == txs[i] && (txs + [stx])[j] == txs[j];
      }
    }
  }

  ghost function GapsIn(base: Columns, txs: seq<SignedTx>): int {
    if txs == [] || RunAll(base, txs).Aborted? then 0
    else
      var earlier, stx := txs[..|txs| - 1], txs[|txs| - 1];
      var live := RunAll(base, earlier).live;
      GapsIn(base, earlier) + if Apply(base, live, stx).outcome.Applied? then Gap(base, live, stx.tx) else 0
  }

  /** What stale reads of a block create from nothing. */
  ghost function ExcessIn(base: Columns, txs: seq<SignedTx>): nat {
    if txs == [] || RunAll(base, txs).Aborted? then 0
    else
      var earlier, stx := txs[..|txs| - 1], txs[|txs| - 1];
      var live := RunAll(base, earlier).live;
      ExcessIn(base, earlier) + if Apply(base, live, stx).outcome.Applied? then Max(Gap(base, live, stx.tx), 0) else 0
  }

  lemma StepIds(base: Columns, live: Columns, stx: SignedTx)
    requires Apply(base, live, stx).outcome.Applied? && IdsBelow(live.unbondings, live.nextUnbondId)
    ensures var after := Apply(base, live, stx).live; IdsBelow(after.unbondings, after.nextUnbondId)
  {
    hide Apply;
    Unbondings.StepSteps(base, live, stx);
    hide Unbondings.EventsOf;
  }

  lemma DroppedConserves(base: Columns, live: Columns, stx: SignedTx)
    requires Apply(base, live, stx).outcome.Dropped?
    ensures var after := Apply(base, live, stx).live;
      && after.escrows == live.escrows && after.proposals == live.proposals
      && after.unbondings == live.unbondings && after.nextUnbondId == live.nextUnbondId && Total(after) == Total(live)
  {
    Replay.RejectedLeavesLedgerExactly(base, live, stx);
  }

  /** For every block, stale reads and all: what the ledger holds after its transactions,
      plus what is burned, is what it held, plus what is minted, plus the gaps. */
  lemma {:induction false} BlockTotal(base: Columns, txs: seq<SignedTx>)
    requires RunAll(base, txs).Pass? && IdsBelow(base.unbondings, base.nextUnbondId)
    requires Total(base) + MintedIn(RunAll(base, txs).kept) + ExcessIn(base, txs) <= U128_MAX
    ensures var pass := RunAll(base, txs);
      && IdsBelow(pass.live.unbondings, pass.live.nextUnbondId)
      && Total(pass.live) + BurnedIn(base, pass.kept) == Total(base) + MintedIn(pass.kept) + GapsIn(base, txs)
      && GapsIn(base, txs) <= ExcessIn(base, txs)
  {
    hide Apply, Total, Burned, MintedBy, IdsBelow, Gap;
    if txs != [] {
      var pass, stx := RunAll(base, txs[..|txs| - 1]), txs[|txs| - 1];
      if Apply(base, pass.live, stx).outcome.Applied? {
        SumsSnoc(base, pass.kept, stx);
        BlockTotal(base, txs[..|txs| - 1]);
        StepTotal(base, pass.live, stx);
        StepIds(base, pass.live, stx);
      } else {
        BlockTotal(base, txs[..|txs| - 1]);
        DroppedConserves(base, pass.live, stx);
      }
    }
  }

  /** A block conserves exactly when its gaps cancel out. */
  lemma BlockConservesExactly(base: Columns, txs: seq<SignedTx>)
    requires RunAll(base, txs).Pass? && IdsBelow(base.unbondings, base.nextUnbondId)
    requires Total(base) + MintedIn(RunAll(base, txs).kept) + ExcessIn(base, txs) <= U128_MAX
    ensures var pass := RunAll(base, txs);
      Total(pass.live) + BurnedIn(base, pass.kept) == Total(base) + MintedIn(pass.kept) <==> GapsIn(base, txs) == 0
  {
    hide RunAll, Total, BurnedIn, MintedIn, GapsIn, IdsBelow;
    BlockTotal(base, txs);
  }

  lemma FreshHasNoGap(base: Columns, live: Columns, stx: SignedTx)
    requires NoStaleRead(base, live, stx.tx)
    ensures Gap(base, live, stx.tx) == 0
  {
  }

  /** At most one applied escrow transaction per job and at most one applied proposal: no gaps. */
  lemma {:induction false} OncePerKeyHasNoGap(base: Columns, txs: seq<SignedTx>)
    requires RunAll(base, txs).Pass? && Lifecycle.FreshIds(base) && OncePerKey(RunAll(base, txs).kept)
    ensures UntouchedStay(base, RunAll(base, txs).live, RunAll(base, txs).kept)
    ensures GapsIn(base, txs) == 0 == ExcessIn(base, txs)
  {
    hide Apply, OncePerKey, Lifecycle.FreshIds, Gap;
    if txs != [] {
      var pass, stx := RunAll(base, txs[..|txs| - 1]), txs[|txs| - 1];
      if Apply(base, pass.live, stx).outcome.Applied? {
        SumsSnoc(base, pass.kept, stx);
        OncePerKeyHasNoGap(base, txs[..|txs| - 1]);
        hide UntouchedStay;
        FirstOnKeyIsFresh(base, pass.live, pass.kept, stx);
        FreshHasNoGap(base, pass.live, stx);
        UntouchedAfter(base, pass.live, pass.kept, stx);
      } else {
        OncePerKeyHasNoGap(base, txs[..|txs| - 1]);
        DroppedConserves(base, pass.live, stx);
      }
    }
  }

  /** For every block with at most one applied escrow transaction per job and at most one
      applied proposal: balances, stakes, unbondings, locked escrows and open deposits
      change by exactly what is minted less what is burned. */
  lemma BlockConserves(base: Columns, txs: seq<SignedTx>)
    requires RunAll(base, txs).Pass? && Lifecycle.FreshIds(base) && IdsBelow(base.unbondings, base.nextUnbondId)
    requires OncePerKey(RunAll(base, txs).kept) && Total(base) + MintedIn(RunAll(base, txs).kept) <= U128_MAX
    ensures var pass := RunAll(base, txs);
      Total(pass.live) + BurnedIn(base, pass.kept) == Total(base) + MintedIn(pass.kept)
  {
    hide RunAll, Total, BurnedIn, MintedIn, IdsBelow, OncePerKey, UntouchedStay;
    OncePerKeyHasNoGap(base, txs);
    BlockTotal(base, txs);
  }

  // ----- The epoch pass -----

  ghost function GovHeld(b: GovBook): nat {
    Sum(b.accounts, Balance) + Sum(b.proposals, OpenDeposit) + Sum(b.proposals, Forfeit)
  }

  lemma MovedSums(proposals: map<u64, ProposalRecord>, id: u64, r: ProposalRecord)
    requires id in proposals && r.proposal == proposals[id].proposal
    ensures Sum(proposals[id := r], OpenDeposit) + OpenDeposit(proposals[id]) ==
      Sum(proposals, OpenDeposit) + OpenDeposit(r)
    ensures Sum(proposals[id := r], Forfeit) + Forfeit(proposals[id]) == Sum(proposals, Forfeit) + Forfeit(r)
    ensures OpenDeposit(proposals[id]) <= Sum(proposals, OpenDeposit)
  {
    SumUpdate(proposals, OpenDeposit, id, r);
    SumUpdate(proposals, Forfeit, id, r);
    SumAtLeast(proposals, OpenDeposit, id);
  }

  lemma AdvanceOneConserves(base: Columns, book: GovBook, id: u64, now: u64)
    requires id in base.proposals && id in book.proposals && book.proposals[id] == base.proposals[id]
    requires AdvanceOne(base, book, id, now).Some? && GovHeld(book) <= U128_MAX
    ensures GovHeld(AdvanceOne(base, book, id, now).value) == GovHeld(book)
  {
    hide Resolve, CreditIfPositive;
    var record := base.proposals[id];
    var r := Resolve(base.votes, TotalBonded(base.stakes), book.accounts, id, record, now);
    if r.Moved? {
      Lifecycle.ResolveSteps(base.votes, TotalBonded(base.stakes), book.accounts, id, record, now);
      MovedSums(book.proposals, id, r.record);
      if r.refund {
        assert record.phase == Voting;
        CreditSum(book.accounts, record.proposal.proposer, record.proposal.deposit);
      }
    }
  }

  predicate Ascending(ids: seq<u64>) {
    forall i, j :: 0 <= i < j < |ids| ==> ids[i] < ids[j]
  }

  /** The pass moves deposits between open, returned and forfeited, and nothing else. */
  lemma {:induction false} AdvanceConserves(base: Columns, book: GovBook, ids: seq<u64>, now: u64)
    requires (forall id :: id in ids ==> id in base.proposals) && Ascending(ids) && Advance(base, book, ids, now).Some?
    requires forall id :: id in base.proposals ==> id in book.proposals && book.proposals[id] == base.proposals[id]
    requires GovHeld(book) <= U128_MAX
    ensures GovHeld(Advance(base, book, ids, now).value) == GovHeld(book)
    decreases |ids|
  {
    hide AdvanceOne, GovHeld;
    if ids != [] {
      var earlier, id := ids[..|ids| - 1], ids[|ids| - 1];
      AdvanceConserves(base, book, earlier, now);
      Lifecycle.AdvanceSteps(base, book, earlier, now);
      assert id !in earlier;
      AdvanceOneConserves(base, Advance(base, book, earlier, now).value, id, now);
    }
  }
}
