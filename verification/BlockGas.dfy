/**
 The gas of blocks filled from the pool. The pool charges a transaction what it declares, the
 ledger what it costs; the two differ for escrow locks, which declare a fee of their own.
 */
module BlockGas {
  import opened Numeric
  import opened Types
  import opened LedgerSpec
  import opened Blocks
  import opened Mempool
  import FeeMarket
  import Conservation
  import Nonces
  import Replay

  // ----- Declared and due -----

  function Declared(tx: Transaction): u64 {
    if LaneOf(tx).Lane? then LaneOf(tx).fee else 0
  }

  /** What the ledger charges for a transaction of a kind the pool takes. */
  function GasDue(tx: Transaction): u64 {
    if tx.EscrowLock? then ESCROW_LOCK_GAS else Declared(tx)
  }

  predicate Underpays(tx: Transaction) {
    tx.EscrowLock? && tx.fee < ESCROW_LOCK_GAS
  }

  lemma DueWithinDeclaredExactly(tx: Transaction)
    ensures GasDue(tx) <= Declared(tx) <==> !Underpays(tx)
  {
  }

  lemma StepGas(base: Columns, live: Columns, stx: SignedTx)
    requires LaneOf(stx.tx).Lane? && Apply(base, live, stx).outcome.Applied?
    ensures Apply(base, live, stx).outcome.gas == GasDue(stx.tx)
  {
    hide Spend, Credit, Debit, AccountAt, QuoteFault, IsHttps, InBootstrap, StakesOf, EscrowsOf, ModelsOf, GovOf;
    hide WithStakes, WithEscrows, WithModels, WithGov, WithReceipts, StakeOpApplied, Anchored, Disputed, Settling,
      Minted;
  }

  function DueIn(txs: seq<SignedTx>): nat {
    if txs == [] then 0 else DueIn(txs[..|txs| - 1]) + GasDue(txs[|txs| - 1].tx)
  }

  function DeclaredIn(txs: seq<SignedTx>): nat {
    if txs == [] then 0 else DeclaredIn(txs[..|txs| - 1]) + Declared(txs[|txs| - 1].tx)
  }

  /** What the locks of a list declare too little. */
  function ShortfallIn(txs: seq<SignedTx>): nat {
    if txs == [] then 0
    else
      var tx := txs[|txs| - 1].tx;
      ShortfallIn(txs[..|txs| - 1]) + Max(GasDue(tx) - Declared(tx), 0)
  }

  /** What the locks of a list declare too much. */
  function SurplusIn(txs: seq<SignedTx>): nat {
    if txs == [] then 0
    else
      var tx := txs[|txs| - 1].tx;
      SurplusIn(txs[..|txs| - 1]) + Max(Declared(tx) - GasDue(tx), 0)
  }

  lemma {:induction false} DueAddsUp(txs: seq<SignedTx>)
    ensures DueIn(txs) + SurplusIn(txs) == DeclaredIn(txs) + ShortfallIn(txs)
  {
    if txs != [] {
      DueAddsUp(txs[..|txs| - 1]);
    }
  }

  lemma SumsSnoc(txs: seq<SignedTx>, stx: SignedTx)
    ensures DueIn(txs + [stx]) == DueIn(txs) + GasDue(stx.tx)
    ensures DeclaredIn(txs + [stx]) == DeclaredIn(txs) + Declared(stx.tx)
    ensures ShortfallIn(txs + [stx]) == ShortfallIn(txs) + Max(GasDue(stx.tx) - Declared(stx.tx), 0)
  {
    assert (txs + [stx])[..|txs|] == txs;
  }

  // ----- A pass -----

  lemma PassOfPrefix(base: Columns, txs: seq<SignedTx>)
    requires txs != [] && RunAll(base, txs).Pass?
    ensures RunAll(base, txs[..|txs| - 1]).Pass?
  {
  }

  ghost predicate GasAsDue(pass: Pass, txs: seq<SignedTx>) {
    && pass.Pass? && pass.gas == Min(DueIn(pass.kept), U64_MAX)
    && DeclaredIn(pass.kept) <= DeclaredIn(txs)
    && ShortfallIn(pass.kept) <= ShortfallIn(txs)
  }

  lemma GasAfter(base: Columns, pass: Pass, txs: seq<SignedTx>, stx: SignedTx)
    requires GasAsDue(pass, txs) && LaneOf(stx.tx).Lane? && PassAfter(pass, base, stx).Pass?
    ensures GasAsDue(PassAfter(pass, base, stx), txs + [stx])
  {
    hide Apply, LaneOf, GasDue, Declared, DueIn, DeclaredIn, ShortfallIn;
    SumsSnoc(pass.kept, stx);
    SumsSnoc(txs, stx);
    if Apply(base, pass.live, stx).outcome.Applied? {
      StepGas(base, pass.live, stx);
    }
  }

  /** The gas of a pass over pool transactions is what those that landed are due. */
  lemma {:induction false} PassGas(base: Columns, txs: seq<SignedTx>)
    requires RunAll(base, txs).Pass? && forall stx :: stx in txs ==> LaneOf(stx.tx).Lane?
    ensures GasAsDue(RunAll(base, txs), txs)
  {
    if txs != [] {
      hide PassAfter, LaneOf, GasAsDue;
      var earlier, stx := txs[..|txs| - 1], txs[|txs| - 1];
      assert stx in txs;
      PassOfPrefix(base, txs);
      PassGas(base, earlier);
      GasAfter(base, RunAll(base, earlier), earlier, stx);
      assert earlier + [stx] == txs;
    }
  }

  /** Whatever the pool hands out: the block's gas is within the limit exactly when the locks
      that landed fall short by no more than what the block leaves of the limit. */
  lemma GasWithinLimitExactly(base: Columns, txs: seq<SignedTx>, limit: u64)
    requires RunAll(base, txs).Pass? && forall stx :: stx in txs ==> LaneOf(stx.tx).Lane?
    ensures var pass := RunAll(base, txs);
      pass.gas <= limit <==>
        limit == U64_MAX || DeclaredIn(pass.kept) + ShortfallIn(pass.kept) <= limit + SurplusIn(pass.kept)
  {
    PassGas(base, txs);
    DueAddsUp(RunAll(base, txs).kept);
  }

  lemma {:induction false} NoShortfall(txs: seq<SignedTx>)
    requires forall stx :: stx in txs ==> !Underpays(stx.tx)
    ensures ShortfallIn(txs) == 0
  {
    if txs != [] {
      assert txs[|txs| - 1] in txs;
      NoShortfall(txs[..|txs| - 1]);
    }
  }

  lemma {:induction false} DrainedDeclares(m: Entries, es: seq<Entry>, nextSeq: u64)
    requires GoodEntries(m, nextSeq) && forall e :: e in es ==> Pooled(m, e)
    ensures GasOf(es) == Min(DeclaredIn(TxsOf(es)), U64_MAX)
  {
    if es != [] {
      var earlier, e := es[..|es| - 1], es[|es| - 1];
      DrainedDeclares(m, earlier, nextSeq);
      assert e in es && Pooled(m, e);
      SumsSnoc(TxsOf(earlier), e.tx);
      assert TxsOf(es) == TxsOf(earlier) + [e.tx];
    }
  }

  /** A drain without underpaid locks fills no block beyond the limit it was made for. */
  lemma PaidLocksKeepLimit(base: Columns, m: Entries, left: Entries, es: seq<Entry>, limit: u64, maxBytes: u64,
      nextSeq: u64)
    requires Drained(m, left, es, limit, maxBytes) && GoodEntries(m, nextSeq)
    requires RunAll(base, TxsOf(es)).Pass? && forall stx :: stx in TxsOf(es) ==> !Underpays(stx.tx)
    ensures RunAll(base, TxsOf(es)).gas <= limit
  {
    hide RunAll, GasOf, Underpays, Declared, GasDue;
    PickedHaveLanes(m, left, es, limit, maxBytes, nextSeq);
    DrainedDeclares(m, es, nextSeq);
    PassGas(base, TxsOf(es));
    NoShortfall(TxsOf(es));
    DueAddsUp(RunAll(base, TxsOf(es)).kept);
  }

  lemma LandsAfter(base: Columns, earlier: seq<SignedTx>, stx: SignedTx, g: u64)
    requires RunAll(base, earlier).Pass? && RunAll(base, earlier).kept == earlier
    requires Apply(base, RunAll(base, earlier).live, stx).outcome == Applied(g)
    ensures var pass := RunAll(base, earlier);
      RunAll(base, earlier + [stx]) == Pass(Apply(base, pass.live, stx).live, SatAdd64(pass.gas, g), earlier + [stx])
  {
    hide Apply;
    RunAllSnoc(base, earlier, stx);
  }

  lemma RunNothing(base: Columns)
    ensures RunAll(base, []) == Pass(base, 0, [])
  {
  }

  lemma LockCosts(tx: Transaction)
    requires tx.EscrowLock?
    ensures LaneOf(tx).Lane? && Declared(tx) == tx.fee && GasDue(tx) == ESCROW_LOCK_GAS
  {
  }

  lemma OneDeclares(stx: SignedTx)
    ensures DeclaredIn([stx]) == Declared(stx.tx)
  {
    assert [stx][..0] == [];
  }

  /** Each underpaid lock is a counterexample by itself: a limit that lets it out of the pool is
      below the gas of its block. */
  lemma UnderpaidLockExceeds(base: Columns, stx: SignedTx)
    requires Underpays(stx.tx) && Apply(base, base, stx).outcome.Applied?
    ensures RunAll(base, [stx]).Pass? && DeclaredIn([stx]) == stx.tx.fee < RunAll(base, [stx]).gas
  {
    hide Apply, RunAll, Declared, DeclaredIn, LaneOf, GasDue;
    LockCosts(stx.tx);
    OneDeclares(stx);
    RunNothing(base);
    StepGas(base, base, stx);
    LandsAfter(base, [], stx, ESCROW_LOCK_GAS);
    assert [] + [stx] == [stx];
  }

  // ----- Free locks -----

  function FreeLock(user: Address, job: nat, nonce: u64): SignedTx {
    Conservation.LockTx(user, JobId(job), 1, nonce)
  }

  lemma FreeLockCosts(user: Address, job: nat, nonce: u64)
    ensures Declared(FreeLock(user, job, nonce).tx) == 0 && GasDue(FreeLock(user, job, nonce).tx) == ESCROW_LOCK_GAS
  {
  }

  /** Locks of one atom each that declare no fee, for consecutive jobs and nonces. */
  function FreeLocks(user: Address, job: nat, nonce: u64, n: nat): seq<SignedTx>
    requires nonce + n <= U64_MAX
  {
    if n == 0 then [] else FreeLocks(user, job, nonce, n - 1) + [FreeLock(user, job + n - 1, nonce + n - 1)]
  }

  lemma NothingDeclared()
    ensures DeclaredIn([]) == 0
  {
  }

  lemma {:induction false} FreeLocksDeclareNothing(user: Address, job: nat, nonce: u64, n: nat)
    requires nonce + n <= U64_MAX
    ensures DeclaredIn(FreeLocks(user, job, nonce, n)) == 0 && |FreeLocks(user, job, nonce, n)| == n
  {
    hide Declared, FreeLock, DeclaredIn;
    if n > 0 {
      FreeLocksDeclareNothing(user, job, nonce, n - 1);
      FreeLockCosts(user, job + n - 1, nonce + n - 1);
      SumsSnoc(FreeLocks(user, job, nonce, n - 1), FreeLock(user, job + n - 1, nonce + n - 1));
    } else {
      NothingDeclared();
    }
  }

  lemma FreeLockLands(base: Columns, live: Columns, user: Address, job: nat, acct: Account)
    requires AccountAt(live.accounts, user) == acct && 1 <= acct.balance && acct.nonce < U64_MAX
    requires JobId(job) !in base.escrows
    ensures var step := Apply(base, live, FreeLock(user, job, acct.nonce));
      && step.outcome == Applied(ESCROW_LOCK_GAS)
      && AccountAt(step.live.accounts, user) == Account(acct.balance - 1, acct.nonce + 1)
  {
    Conservation.LockApplies(base, live, user, JobId(job), 1);
    hide Apply, AccountAt, LaneOf;
    StepGas(base, live, FreeLock(user, job, acct.nonce));
  }

  /** Every transaction of a list landed, for so much gas, and left the account so. */
  ghost predicate AllLand(base: Columns, txs: seq<SignedTx>, gas: u64, user: Address, acct: Account) {
    var pass := RunAll(base, txs);
    pass.Pass? && pass.kept == txs && pass.gas == gas && AccountAt(pass.live.accounts, user) == acct
  }

  lemma NoneLand(base: Columns, user: Address)
    ensures AllLand(base, [], 0, user, AccountAt(base.accounts, user))
  {
  }

  lemma OneMoreLands(base: Columns, txs: seq<SignedTx>, gas: u64, user: Address, acct: Account, job: nat)
    requires AllLand(base, txs, gas, user, acct) && 1 <= acct.balance && acct.nonce < U64_MAX
    requires JobId(job) !in base.escrows
    ensures AllLand(base, txs + [FreeLock(user, job, acct.nonce)], SatAdd64(gas, ESCROW_LOCK_GAS), user,
      Account(acct.balance - 1, acct.nonce + 1))
  {
    hide Apply, AccountAt, FreeLock, RunAll;
    FreeLockLands(base, RunAll(base, txs).live, user, job, acct);
    LandsAfter(base, txs, FreeLock(user, job, acct.nonce), ESCROW_LOCK_GAS);
  }

  /** Any number of them lands in one block, each for the gas of a lock: no gas limit holds. */
  lemma {:induction false} FreeLocksLand(base: Columns, user: Address, job: nat, acct: Account, n: nat)
    requires AccountAt(base.accounts, user) == acct && n <= acct.balance && acct.nonce + n <= U64_MAX
    requires forall i :: job <= i < job + n ==> JobId(i) !in base.escrows
    ensures AllLand(base, FreeLocks(user, job, acct.nonce, n), Min(n * ESCROW_LOCK_GAS, U64_MAX), user,
      Account(acct.balance - n, acct.nonce + n))
  {
    hide AllLand, FreeLock, AccountAt;
    if n == 0 {
      NoneLand(base, user);
    } else {
      FreeLocksLand(base, user, job, acct, n - 1);
      OneMoreLands(base, FreeLocks(user, job, acct.nonce, n - 1), Min((n - 1) * ESCROW_LOCK_GAS, U64_MAX), user,
        Account(acct.balance - (n - 1), acct.nonce + (n - 1)), job + n - 1);
    }
  }

  /** Nine hundred free locks, drained under whatever limit, make a block of three times the gas
      target, after which the base fee breaks its bound. */
  lemma FreeLocksBreakFeeBound(base: Columns, user: Address, job: nat)
    requires AccountAt(base.accounts, user).nonce + 900 <= U64_MAX && 900 <= AccountAt(base.accounts, user).balance
    requires forall i :: job <= i < job + 900 ==> JobId(i) !in base.escrows
    ensures var txs := FreeLocks(user, job, AccountAt(base.accounts, user).nonce, 900);
      && RunAll(base, txs).Pass? && DeclaredIn(txs) == 0
      && FeeMarket.NextBaseFee(8, RunAll(base, txs).gas, FeeMarket.TARGET_GAS_PER_BLOCK) == FeeMarket.Fee(10)
  {
    hide RunAll, AccountAt, FeeMarket.NextBaseFee, DeclaredIn, FreeLocks;
    var nonce := AccountAt(base.accounts, user).nonce;
    FreeLocksLand(base, user, job, AccountAt(base.accounts, user), 900);
    FreeLocksDeclareNothing(user, job, nonce, 900);
    FeeMarket.TripleTargetBreaksBound(FeeMarket.TARGET_GAS_PER_BLOCK);
  }

  /** An accepted block leaves its height and the fee of the next block: with `d` an eighth of fee times
      distance from 15,000,000 over that, clamped and rounded down, `d` less for the gas below it and at
      least one more for the gas above it. */
  lemma FeeAfterBlock(base: Columns, block: Block, d: nat)
    requires Accepts(base, block)
    requires RunAll(base, block.txs).Pass?
    requires var used, fee: nat := RunAll(base, block.txs).gas, block.header.baseFee;
      8 * (d * 15_000_000) <= Min(fee * (if used < 15_000_000 then 15_000_000 - used else used - 15_000_000), U128_MAX)
        < 8 * ((d + 1) * 15_000_000)
    ensures var used, fee: nat := RunAll(base, block.txs).gas, block.header.baseFee;
      && Next(base, block).height == block.header.height
      && Next(base, block).baseFee ==
           (if used < 15_000_000 then Max(fee - d, 1)
            else if used > 15_000_000 then Min(fee + Max(d, 1), U128_MAX)
            else Max(fee, 1))
  {
    hide RunAll, SlashAll, Rotated, FeeMarket.NextBaseFee;
    FeeMarket.StepExactly(block.header.baseFee, RunAll(base, block.txs).gas, 15_000_000, d);
  }
}
