/**
 A validator replays exactly the transactions the proposer kept. The two runs agree on
 everything except receipt marks: a rejected receipt batch leaves marks in the
 proposer's context that the replay never sees, so plain equality is not kept and the
 proof goes through a simulation.
 */
module Replay {
  import opened Numeric
  import opened Types
  import opened LedgerSpec
  import Merkle

  // ----- What a rejected transaction leaves behind -----

  lemma {:induction false} MarksOnlyGrow(seen: map<JobId, u64>, receipts: seq<Receipt>, height: u64)
    ensures var m := MarkReceipts(seen, receipts, height).0;
      forall j :: j in seen ==> j in m && m[j] == seen[j]
    decreases |receipts|
  {
    if receipts != [] && receipts[0].job !in seen {
      MarksOnlyGrow(seen[receipts[0].job := height], receipts[1..], height);
    }
  }

  lemma FirstMarkStays(seen: map<JobId, u64>, receipts: seq<Receipt>, height: u64)
    requires receipts != [] && receipts[0].job !in seen
    ensures receipts[0].job in MarkReceipts(seen, receipts, height).0
  {
    MarksOnlyGrow(seen[receipts[0].job := height], receipts[1..], height);
  }

  /** A receipt batch that gets as far as marking its first receipt. */
  predicate StartsMarking(seen: map<JobId, u64>, tx: Transaction) {
    && tx.AnchorReceipts?
    && tx.batch.receipts != []
    && Merkle.Root(ReceiptLeaves(tx.batch.receipts)) == tx.batch.merkleRoot
    && tx.batch.receipts[0].job !in seen
  }

  lemma RejectedBatchExactly(bootstrap: bool, book: ReceiptBook, batch: ReceiptBatch, height: u64)
    requires Anchored(bootstrap, book, batch, height).outcome.Dropped?
    ensures var after := Anchored(bootstrap, book, batch, height).book;
      && after.pendingRewards == book.pendingRewards
      && (after == book <==> !StartsMarking(book.receipts, AnchorReceipts(batch)))
  {
    if StartsMarking(book.receipts, AnchorReceipts(batch)) {
      FirstMarkStays(book.receipts, batch.receipts, height);
    }
  }

  lemma RejectedStakeOpKeepsBook(bootstrap: bool, book: StakeBook, sender: Address, op: StakeOp, height: u64)
    requires StakeOpApplied(bootstrap, book, sender, op, height).outcome.Dropped?
    ensures StakeOpApplied(bootstrap, book, sender, op, height).book == book
  {
  }

  /** Writing back an unchanged book changes nothing. */
  lemma UnchangedBooks(live: Columns, o: Outcome)
    ensures OnAccounts(live, Done(live.accounts, o)) == Step(live, o)
    ensures OnStakes(live, Done(StakesOf(live), o)) == Step(live, o)
    ensures OnEscrows(live, Done(EscrowsOf(live), o)) == Step(live, o)
    ensures OnModels(live, Done(ModelsOf(live), o)) == Step(live, o)
    ensures OnGov(live, Done(GovOf(live), o)) == Step(live, o)
    ensures OnRegistry(live, Done(live.registry, o)) == Step(live, o)
  {
  }

  lemma RejectedLockKeepsBook(committed: Escrows, b: EscrowBook, user: Address, job: JobId, amount: u128, nonce: u64,
      fee: u64,
    height: u64)
    requires Locking(committed, b, user, job, amount, nonce, fee, height).outcome.Dropped?
    ensures Locking(committed, b, user, job, amount, nonce, fee, height).book == b
  {
    hide Spend, AccountAt;
  }

  lemma RejectedSettleKeepsBook(committed: Escrows, b: EscrowBook, job: JobId, p: Payees, height: u64)
    requires Settling(committed, b, job, p, height).outcome.Dropped?
    ensures Settling(committed, b, job, p, height).book == b
  {
    hide SplitCredited;
  }

  lemma RejectedProposalKeepsBook(committedId: u64, b: GovBook, sender: Address, p: Proposal, height: u64)
    requires Proposed(committedId, b, sender, p, height).outcome.Dropped?
    ensures Proposed(committedId, b, sender, p, height).book == b
  {
    hide Debit, AccountAt;
  }

  lemma RejectedMoneyKeepsLedger(base: Columns, live: Columns, stx: SignedTx)
    requires Apply(base, live, stx).outcome.Dropped?
    requires stx.tx.Transfer? || stx.tx.Stake? || stx.tx.EscrowLock? || stx.tx.EscrowSettle? || stx.tx.RewardMint?
    ensures Apply(base, live, stx).live == live
  {
    UnchangedBooks(live, Apply(base, live, stx).outcome);
    hide InBootstrap, StakeOpApplied, Locking, Settling, StakesOf, EscrowsOf, WithStakes, WithEscrows;
    match stx.tx
    case Stake(op) =>
      RejectedStakeOpKeepsBook(InBootstrap(live.height, |base.validators|), StakesOf(live), OfSigner(stx.signer), op,
        live.height);
    case EscrowLock(user, job, amount, nonce, fee) =>
      RejectedLockKeepsBook(base.escrows, EscrowsOf(live), user, job, amount, nonce, fee, live.height);
    case EscrowSettle(job, p) => RejectedSettleKeepsBook(base.escrows, EscrowsOf(live), job, p, live.height);
    case _ =>
  }

  lemma RejectedVoteKeepsBook(base: Columns, b: GovBook, id: u64, voter: Address, choice: VoteChoice)
    requires Voted(base.proposals, base.votes, b, id, voter, choice).outcome.Dropped?
    ensures Voted(base.proposals, base.votes, b, id, voter, choice).book == b
  {
  }

  lemma RejectedModelKeepsBook(committed: map<string, Manifest>, b: ModelBook, m: Manifest, registrar: Address,
      deposit: u128)
    requires ModelRegistered(committed, b, m, registrar, deposit).outcome.Dropped?
    ensures ModelRegistered(committed, b, m, registrar, deposit).book == b
  {
    hide Debit, AccountAt;
  }

  lemma RejectedTeeKeepsRegistry(r: Registry, node: NodeId, c: TeeCapability)
    requires TeeRegistered(r, node, c).outcome.Dropped?
    ensures TeeRegistered(r, node, c).book == r
  {
    hide QuoteFault;
  }

  lemma RejectedGatewayKeepsRegistry(r: Registry, node: NodeId, operator: Address, url: seq<u8>, https: bool,
      height: u64)
    requires GatewayRegistered(r, node, operator, url, https, height).outcome.Dropped?
    ensures GatewayRegistered(r, node, operator, url, https, height).book == r
  {
  }

  lemma RejectedRecordKeepsLedger(base: Columns, live: Columns, stx: SignedTx)
    requires Apply(base, live, stx).outcome.Dropped?
    requires !stx.tx.Transfer? && !stx.tx.Stake? && !stx.tx.EscrowLock? && !stx.tx.EscrowSettle? && !stx.tx.RewardMint?
    requires !stx.tx.AnchorReceipts?
    ensures Apply(base, live, stx).live == live
  {
    UnchangedBooks(live, Apply(base, live, stx).outcome);
    hide Proposed, Voted, ModelRegistered, TeeRegistered, GatewayRegistered, ModelsOf, GovOf, WithModels, WithGov;
    match stx.tx
    case Propose(p) =>
      RejectedProposalKeepsBook(base.nextProposalId, GovOf(live), OfSigner(stx.signer), p, live.height);
    case Vote(id, voter, choice) => RejectedVoteKeepsBook(base, GovOf(live), id, voter, choice);
    case RegisterModel(m, registrar, deposit) => RejectedModelKeepsBook(base.models, ModelsOf(live), m, registrar,
      deposit);
    case RegisterTee(node, _, c) => RejectedTeeKeepsRegistry(live.registry, node, c);
    case RegisterGateway(node, operator, url, https) =>
      RejectedGatewayKeepsRegistry(live.registry, node, operator, url, https, live.height);
    case _ =>
  }

  lemma RejectedOtherKeepsLedger(base: Columns, live: Columns, stx: SignedTx)
    requires Apply(base, live, stx).outcome.Dropped? && !stx.tx.AnchorReceipts?
    ensures Apply(base, live, stx).live == live
  {
    hide Apply;
    if stx.tx.Transfer? || stx.tx.Stake? || stx.tx.EscrowLock? || stx.tx.EscrowSettle? || stx.tx.RewardMint? {
      RejectedMoneyKeepsLedger(base, live, stx);
    } else {
      RejectedRecordKeepsLedger(base, live, stx);
    }
  }

  /** A rejected transaction leaves the ledger as it was, except, and always, when
      it is a receipt batch that marked its first receipt before a later one was a repeat. */
  lemma RejectedLeavesLedgerExactly(base: Columns, live: Columns, stx: SignedTx)
    requires Apply(base, live, stx).outcome.Dropped?
    ensures Apply(base, live, stx).live == live <==> !StartsMarking(live.receipts, stx.tx)
    ensures Apply(base, live, stx).live == live.(receipts := Apply(base, live, stx).live.receipts)
  {
    if stx.tx.AnchorReceipts? {
      RejectedBatchExactly(InBootstrap(live.height, |base.validators|), ReceiptsOf(live), stx.tx.batch, live.height);
    } else {
      RejectedOtherKeepsLedger(base, live, stx);
    }
  }

  // ----- The simulation -----

  /** The replay's ledger differs from the proposer's only by missing receipt marks. */
  predicate Simulates(built: Columns, replayed: Columns) {
    && built == replayed.(receipts := built.receipts)
    && forall j :: j in replayed.receipts ==> j in built.receipts && built.receipts[j] == replayed.receipts[j]
  }

  lemma {:induction false} MarkingSimulates(seen: map<JobId, u64>, fewer: map<JobId, u64>, receipts: seq<Receipt>,
      height: u64)
    requires forall j :: j in fewer ==> j in seen && seen[j] == fewer[j]
    requires MarkReceipts(seen, receipts, height).1 == None
    ensures MarkReceipts(fewer, receipts, height).1 == None
    ensures var m, n := MarkReceipts(seen, receipts, height).0, MarkReceipts(fewer, receipts, height).0;
      forall j :: j in n ==> j in m && m[j] == n[j]
    decreases |receipts|
  {
    if receipts != [] {
      var j := receipts[0].job;
      MarkingSimulates(seen[j := height], fewer[j := height], receipts[1..], height);
    }
  }

  lemma {:induction false} MarkingAddsJobs(seen: map<JobId, u64>, receipts: seq<Receipt>, height: u64)
    requires MarkReceipts(seen, receipts, height).1 == None
    ensures var m := MarkReceipts(seen, receipts, height).0;
      forall j :: j in m <==> j in seen || exists i :: 0 <= i < |receipts| && receipts[i].job == j
    decreases |receipts|
  {
    if receipts != [] {
      var rest := receipts[1..];
      MarkingAddsJobs(seen[receipts[0].job := height], rest, height);
      var m := MarkReceipts(seen, receipts, height).0;
      forall j
        ensures j in m <==> j in seen || exists i :: 0 <= i < |receipts| && receipts[i].job == j
      {
        if i :| 0 <= i < |rest| && rest[i].job == j {
          assert receipts[i + 1].job == j;
        }
        if i :| 0 < i < |receipts| && receipts[i].job == j {
          assert rest[i - 1].job == j;
        }
      }
    }
  }

  function Remarked(s: Step, marks: map<JobId, u64>): Step {
    Step(s.live.(receipts := marks), s.outcome)
  }

  lemma BooksIgnoreMarks(live: Columns, marks: map<JobId, u64>)
    ensures var l := live.(receipts := marks);
      StakesOf(l) == StakesOf(live) && EscrowsOf(l) == EscrowsOf(live) && ModelsOf(l) == ModelsOf(live)
        && GovOf(l) == GovOf(live)
  {
  }

  lemma AccountsIgnoreMarks(live: Columns, marks: map<JobId, u64>, d: Done<Accounts>)
    ensures OnAccounts(live.(receipts := marks), d) == Remarked(OnAccounts(live, d), marks)
    ensures OnAccounts(live, d).live.receipts == live.receipts
  {
  }

  lemma StakesIgnoreMarks(live: Columns, marks: map<JobId, u64>, d: Done<StakeBook>)
    ensures OnStakes(live.(receipts := marks), d) == Remarked(OnStakes(live, d), marks)
    ensures OnStakes(live, d).live.receipts == live.receipts
  {
  }

  lemma EscrowsIgnoreMarks(live: Columns, marks: map<JobId, u64>, d: Done<EscrowBook>)
    ensures OnEscrows(live.(receipts := marks), d) == Remarked(OnEscrows(live, d), marks)
    ensures OnEscrows(live, d).live.receipts == live.receipts
  {
  }

  lemma ModelsIgnoreMarks(live: Columns, marks: map<JobId, u64>, d: Done<ModelBook>)
    ensures OnModels(live.(receipts := marks), d) == Remarked(OnModels(live, d), marks)
    ensures OnModels(live, d).live.receipts == live.receipts
  {
  }

  lemma GovIgnoreMarks(live: Columns, marks: map<JobId, u64>, d: Done<GovBook>)
    ensures OnGov(live.(receipts := marks), d) == Remarked(OnGov(live, d), marks)
    ensures OnGov(live, d).live.receipts == live.receipts
  {
  }

  lemma RegistryIgnoresMarks(live: Columns, marks: map<JobId, u64>, d: Done<Registry>)
    ensures OnRegistry(live.(receipts := marks), d) == Remarked(OnRegistry(live, d), marks)
  {
  }

  lemma MarksPassThrough(base: Columns, live: Columns, marks: map<JobId, u64>, stx: SignedTx)
    requires !stx.tx.AnchorReceipts? && !stx.tx.Dispute?
    ensures Apply(base, live.(receipts := marks), stx) == Remarked(Apply(base, live, stx), marks)
  {
    hide Transferred, StakeOpApplied, ModelRegistered, Proposed, Voted, Locking, Settling, Minted, InBootstrap;
    hide OnAccounts, OnStakes, OnEscrows, OnModels, OnGov, StakesOf, EscrowsOf, ModelsOf, GovOf;
    hide TeeRegistered, GatewayRegistered, GatewayRemoved, OnRegistry;
    BooksIgnoreMarks(live, marks);
    var h := live.height;
    match stx.tx
    case Transfer(from, to, amount, nonce, fee) =>
      AccountsIgnoreMarks(live, marks, Transferred(base.baseFee, live.accounts, from, to, amount, nonce, fee));
    case Stake(op) =>
      var bootstrap := InBootstrap(h, |base.validators|);
      StakesIgnoreMarks(live, marks, StakeOpApplied(bootstrap, StakesOf(live), OfSigner(stx.signer), op, h));
    case RegisterModel(manifest, registrar, deposit) =>
      ModelsIgnoreMarks(live, marks, ModelRegistered(base.models, ModelsOf(live), manifest, registrar, deposit));
    case Propose(proposal) =>
      GovIgnoreMarks(live, marks, Proposed(base.nextProposalId, GovOf(live), OfSigner(stx.signer), proposal, h));
    case Vote(id, voter, choice) =>
      GovIgnoreMarks(live, marks, Voted(base.proposals, base.votes, GovOf(live), id, voter, choice));
    case EscrowLock(user, job, amount, nonce, fee) =>
      EscrowsIgnoreMarks(live, marks, Locking(base.escrows, EscrowsOf(live), user, job, amount, nonce, fee, h));
    case EscrowSettle(job, p) => EscrowsIgnoreMarks(live, marks, Settling(base.escrows, EscrowsOf(live), job, p, h));
    case RewardMint(_, total, p) => AccountsIgnoreMarks(live, marks, Minted(live.accounts, total, p));
    case RegisterTee(node, _, capability) => RegistryIgnoresMarks(live, marks,
      TeeRegistered(live.registry, node, capability));
    case RegisterGateway(node, operator, url, https) =>
      RegistryIgnoresMarks(live, marks, GatewayRegistered(live.registry, node, operator, url, https, h));
    case UnregisterGateway(node, _) => RegistryIgnoresMarks(live, marks, GatewayRemoved(live.registry, node));
  }

  /** No other transaction reads or writes the marks. */
  lemma IgnoresMarks(base: Columns, live: Columns, marks: map<JobId, u64>, stx: SignedTx)
    requires !stx.tx.AnchorReceipts? && !stx.tx.Dispute?
    ensures Apply(base, live.(receipts := marks), stx) == Remarked(Apply(base, live, stx), marks)
    ensures Apply(base, live, stx).live.receipts == live.receipts
  {
    hide Apply;
    MarksPassThrough(base, live, marks, stx);
    MarksPassThrough(base, live, live.receipts, stx);
    assert live.(receipts := live.receipts) == live;
  }

  /** Everything but batches and disputes behaves the same on both sides. */
  lemma OthersSimulate(base: Columns, built: Columns, replayed: Columns, stx: SignedTx)
    requires Simulates(built, replayed) && !stx.tx.AnchorReceipts? && !stx.tx.Dispute?
    ensures var b, r := Apply(base, built, stx), Apply(base, replayed, stx);
      b.outcome == r.outcome && Simulates(b.live, r.live) && r.live.receipts == replayed.receipts
  {
    IgnoresMarks(base, replayed, built.receipts, stx);
  }

  predicate Names(stx: SignedTx, j: JobId) {
    stx.tx.AnchorReceipts? && exists i :: 0 <= i < |stx.tx.batch.receipts| && stx.tx.batch.receipts[i].job == j
  }

  lemma BatchesSimulate(base: Columns, built: Columns, replayed: Columns, stx: SignedTx)
    requires Simulates(built, replayed) && stx.tx.AnchorReceipts? && Apply(base, built, stx).outcome.Applied?
    ensures var b, r := Apply(base, built, stx), Apply(base, replayed, stx);
      && b.outcome == r.outcome && Simulates(b.live, r.live)
      && forall j :: j in r.live.receipts <==> j in replayed.receipts || Names(stx, j)
  {
    var receipts := stx.tx.batch.receipts;
    MarkingSimulates(built.receipts, replayed.receipts, receipts, built.height);
    MarkingAddsJobs(replayed.receipts, receipts, built.height);
  }

  /** Whether the replay accepts a transaction the proposer kept. */
  predicate Survives(replayed: Columns, stx: SignedTx) {
    stx.tx.Dispute? ==> stx.tx.claim.job in replayed.receipts
  }

  lemma KeptStepSimulates(base: Columns, built: Columns, replayed: Columns, stx: SignedTx)
    requires Simulates(built, replayed) && Apply(base, built, stx).outcome.Applied?
    ensures var b, r := Apply(base, built, stx), Apply(base, replayed, stx);
      && Simulates(b.live, r.live)
      && (if Survives(replayed, stx) then r.outcome == b.outcome else r.outcome.Dropped?)
      && forall j :: j in r.live.receipts <==> j in replayed.receipts || Names(stx, j)
  {
    if stx.tx.AnchorReceipts? {
      BatchesSimulate(base, built, replayed, stx);
    } else if !stx.tx.Dispute? {
      OthersSimulate(base, built, replayed, stx);
    }
  }

  // ----- Whole lists -----

  /** `j` was committed before the block or is anchored by one of the first `n` kept transactions. */
  predicate AnchoredBefore(base: Columns, kept: seq<SignedTx>, n: nat, j: JobId)
    requires n <= |kept|
  {
    j in base.receipts || exists k :: 0 <= k < n && Names(kept[k], j)
  }

  predicate DisputesAnchored(base: Columns, kept: seq<SignedTx>) {
    forall i :: 0 <= i < |kept| && kept[i].tx.Dispute? ==> AnchoredBefore(base, kept, i, kept[i].tx.claim.job)
  }

  /** The replay of what the proposer kept, in relation to the proposer's own run. */
  ghost predicate ReplayAgrees(base: Columns, built: Pass, replayed: Pass)
    requires built.Pass?
  {
    && replayed.Pass?
    && Simulates(built.live, replayed.live)
    && (forall j :: j in replayed.live.receipts <==> AnchoredBefore(base, built.kept, |built.kept|, j))
    && (if DisputesAnchored(base, built.kept)
        then replayed.kept == built.kept && replayed.gas == built.gas
        else |replayed.kept| < |built.kept|)
  }

  lemma DroppedSimulates(base: Columns, built: Columns, replayed: Columns, stx: SignedTx)
    requires Simulates(built, replayed) && Apply(base, built, stx).outcome.Dropped?
    ensures Simulates(Apply(base, built, stx).live, replayed)
  {
    RejectedLeavesLedgerExactly(base, built, stx);
    if stx.tx.AnchorReceipts? && StartsMarking(built.receipts, stx.tx) {
      MarksOnlyGrow(built.receipts, stx.tx.batch.receipts, built.height);
    }
  }

  lemma AnchoredAfterOneMore(base: Columns, kept: seq<SignedTx>, stx: SignedTx)
    ensures var more := kept + [stx];
      && (forall j :: AnchoredBefore(base, more, |more|, j) <==> AnchoredBefore(base, kept, |kept|, j) || Names(stx, j))
      && (DisputesAnchored(base, more) <==>
          DisputesAnchored(base, kept) && (stx.tx.Dispute? ==> AnchoredBefore(base, kept, |kept|, stx.tx.claim.job)))
  {
    var more, n := kept + [stx], |kept|;
    forall j, i: nat | i <= n
      ensures AnchoredBefore(base, more, i, j) <==> AnchoredBefore(base, kept, i, j)
    {
      if k :| 0 <= k < i && Names(kept[k], j) {
        assert more[k] == kept[k];
      }
    }
    forall j
      ensures AnchoredBefore(base, more, n + 1, j) <==> AnchoredBefore(base, kept, n, j) || Names(stx, j)
    {
      assert more[n] == stx;
      assert AnchoredBefore(base, more, n, j) <==> AnchoredBefore(base, kept, n, j);
      if AnchoredBefore(base, more, n, j) && j !in base.receipts {
        var k :| 0 <= k < n && Names(more[k], j);
        assert 0 <= k < n + 1 && Names(more[k], j);
      }
    }
    if DisputesAnchored(base, more) {
      forall i | 0 <= i < n && kept[i].tx.Dispute?
        ensures AnchoredBefore(base, kept, i, kept[i].tx.claim.job)
      {
        assert more[i] == kept[i];
      }
      assert more[n] == stx;
    }
  }

  lemma KeptStep(base: Columns, built: Pass, replayed: Pass, stx: SignedTx)
    requires built.Pass? && ReplayAgrees(base, built, replayed)
    requires Apply(base, built.live, stx).outcome.Applied?
    ensures ReplayAgrees(base, PassAfter(built, base, stx), PassAfter(replayed, base, stx))
  {
    KeptStepSimulates(base, built.live, replayed.live, stx);
    AnchoredAfterOneMore(base, built.kept, stx);
  }

  /** For every committed state and every list of transactions: replaying the kept ones
      reproduces the proposer's accounts, stakes, unbondings, escrows, proposals, votes,
      models and counters. Every one is applied again, with the same gas, exactly when
      each kept dispute is about a job anchored before it by what was kept or committed. */
  lemma {:induction false} ReplayEquivalence(base: Columns, txs: seq<SignedTx>)
    requires RunAll(base, txs).Pass?
    ensures ReplayAgrees(base, RunAll(base, txs), RunAll(base, RunAll(base, txs).kept))
  {
    if txs != [] {
      var earlier, stx := txs[..|txs| - 1], txs[|txs| - 1];
      ReplayEquivalence(base, earlier);
      var built := RunAll(base, earlier);
      var step := Apply(base, built.live, stx);
      if step.outcome.Applied? {
        KeptStep(base, built, RunAll(base, built.kept), stx);
        RunAllSnoc(base, built.kept, stx);
      } else {
        RejectedLeavesLedgerExactly(base, built.live, stx);
        DroppedSimulates(base, built.live, RunAll(base, built.kept).live, stx);
      }
    }
  }

  lemma {:induction false} KeptAreGiven(base: Columns, txs: seq<SignedTx>)
    requires RunAll(base, txs).Pass?
    ensures forall stx :: stx in RunAll(base, txs).kept ==> stx in txs
  {
    if txs != [] {
      KeptAreGiven(base, txs[..|txs| - 1]);
    }
  }

  /** Without disputes nothing is lost: every kept transaction applies again, with the same gas. */
  lemma ReplayWithoutDisputes(base: Columns, txs: seq<SignedTx>)
    requires RunAll(base, txs).Pass? && forall stx :: stx in txs ==> !stx.tx.Dispute?
    ensures var built := RunAll(base, txs);
      var replayed := RunAll(base, built.kept);
      replayed.Pass? && replayed.kept == built.kept && replayed.gas == built.gas && Simulates(built.live, replayed.live)
  {
    ReplayEquivalence(base, txs);
    KeptAreGiven(base, txs);
  }

  /** Neither a batch nor a dispute: nothing to do with receipt marks. */
  predicate MarkFree(tx: Transaction) {
    !tx.AnchorReceipts? && !tx.Dispute?
  }

  /** Among such transactions the replay is the proposer's run itself, marks and gas included. */
  lemma {:induction false} MarkFreeReplay(base: Columns, txs: seq<SignedTx>)
    requires RunAll(base, txs).Pass? && forall stx :: stx in txs ==> MarkFree(stx.tx)
    ensures RunAll(base, RunAll(base, txs).kept) == RunAll(base, txs)
  {
    if txs != [] {
      var earlier, stx := txs[..|txs| - 1], txs[|txs| - 1];
      assert stx in txs;
      MarkFreeReplay(base, earlier);
      var built := RunAll(base, earlier);
      if Apply(base, built.live, stx).outcome.Applied? {
        hide Apply;
        RunAllSnoc(base, built.kept, stx);
      } else {
        RejectedLeavesLedgerExactly(base, built.live, stx);
      }
    }
  }

  /** A batch that names a new job twice is rejected and leaves the job marked. */
  lemma RepeatIsDropped(base: Columns, r: Receipt)
    requires r.job !in base.receipts
    ensures var root := Merkle.Root(ReceiptLeaves([r, r]));
      Apply(base, base, SignedTx(AnchorReceipts(ReceiptBatch([r, r], root)), PubKey(0), 0)) ==
        Step(base.(receipts := base.receipts[r.job := base.height]), Dropped(ReceiptDoubleAnchor(r.job)))
  {
    var marked := base.receipts[r.job := base.height];
    assert [r, r][1..] == [r];
    assert MarkReceipts(base.receipts, [r, r], base.height) == MarkReceipts(marked, [r], base.height);
  }

  lemma DisputeSteps(base: Columns, live: Columns, job: JobId, node: NodeId)
    ensures var step := Apply(base, live,
      SignedTx(Dispute(DisputeClaim(job, node, 0, 1, OfTreasuryTag)), PubKey(0), 0));
      step == Step(live, if job in live.receipts then Applied(DISPUTE_GAS) else Dropped(DisputeReceiptNotFound))
  {
  }

  /** A dispute can be kept by the proposer and rejected on replay: the batch that
      marked its job was itself rejected, for naming the job twice. */
  lemma RejectedBatchCarriesDispute(base: Columns, r: Receipt)
    requires r.job !in base.receipts
    ensures var root := Merkle.Root(ReceiptLeaves([r, r]));
      var txs := [
        SignedTx(AnchorReceipts(ReceiptBatch([r, r], root)), PubKey(0), 0),
        SignedTx(Dispute(DisputeClaim(r.job, r.computeNode, 0, 1, OfTreasuryTag)), PubKey(0), 0)];
      RunAll(base, txs).Pass? && RunAll(base, txs).kept == [txs[1]] && RunAll(base, [txs[1]]) == Pass(base, 0, [])
  {
    var root := Merkle.Root(ReceiptLeaves([r, r]));
    var bad := SignedTx(AnchorReceipts(ReceiptBatch([r, r], root)), PubKey(0), 0);
    var dispute := SignedTx(Dispute(DisputeClaim(r.job, r.computeNode, 0, 1, OfTreasuryTag)), PubKey(0), 0);
    RepeatIsDropped(base, r);
    DisputeSteps(base, base, r.job, r.computeNode);
    DisputeSteps(base, base.(receipts := base.receipts[r.job := base.height]), r.job, r.computeNode);
    hide Apply;
    RunAllSnoc(base, [], bad);
    RunAllSnoc(base, [bad], dispute);
    RunAllSnoc(base, [], dispute);
    assert [] + [bad] == [bad] && [bad] + [dispute] == [bad, dispute] && [] + [dispute] == [dispute];
  }
}
