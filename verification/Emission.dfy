/**
 The epoch-boundary mint: the rewards queued in the epoch that ends share its emission
 budget by output tokens, and each is split among compute, verifier, treasury and
 delegators.
 */
module Emission {
  import opened Numeric
  import opened Division
  import opened MapSums
  import opened Types
  import opened LedgerSpec
  import opened Store
  import opened KeyOrder
  import Delegators
  import Supply

  const TOTAL_SUPPLY_CAP: u128 := 1_000_000_000 * ATOMS_PER_ARK
  const BLOCKS_PER_YEAR: u64 := 365 * 24 * 3600
  const EPOCHS_PER_YEAR: nat := 365 * 24 * 3600 / 3_600

  /** Whole ARK emitted in each of the first years. */
  const ANNUAL_EMISSION_ARK: seq<nat> := [
    120_000_000, 105_000_000, 90_000_000, 80_000_000, 50_000_000, 50_000_000, 50_000_000, 50_000_000,
    25_000_000, 25_000_000, 25_000_000, 25_000_000, 12_500_000, 12_500_000, 12_500_000, 12_500_000]

  function Halved(n: nat, times: nat): (r: nat)
    ensures r <= n
  {
    if times == 0 then n else Halved(n / 2, times - 1)
  }

  /** After the table, a halving every four years; shifting out the whole width aborts. */
  function AnnualEmissionArk(year: u64): (r: Option<nat>)
    ensures r.Some? ==> r.value <= 120_000_000
  {
    if year < |ANNUAL_EMISSION_ARK| then Some(ANNUAL_EMISSION_ARK[year])
    else
      var halvings := (year - |ANNUAL_EMISSION_ARK| + 4) / 4;
      if halvings >= 128 then None else Some(Halved(12_500_000, halvings))
  }

  /** The budget of one epoch at this height. */
  function EpochBudget(height: u64): (r: Option<u128>)
    ensures r.Some? ==> r.value <= 120_000_000 * ATOMS_PER_ARK / EPOCHS_PER_YEAR
  {
    match AnnualEmissionArk(height / BLOCKS_PER_YEAR)
    case None => None
    case Some(ark) => Some(ark * ATOMS_PER_ARK / EPOCHS_PER_YEAR)
  }

  // ----- One reward -----

  const MULTIPLIER_ONE: nat := 10_000

  /** Tokens at the epoch's rate. Size, category, latency and uptime multipliers are all
      one for the arguments the mint passes. */
  function BaseReward(tokens: u32, perToken: u128): u128 {
    SatMul128(SatMul128(tokens, perToken), MULTIPLIER_ONE) / MULTIPLIER_ONE
  }

  function Scaled(reward: nat, bps: nat): nat {
    reward * bps
  }

  /** A queued reward before the budget is applied; `None` on overflow. */
  function RewardOf(p: PendingReward, perToken: u128): Option<u128> {
    var product := Scaled(BaseReward(p.outputTokens, perToken), p.teeBps * p.httpsBps / MULTIPLIER_ONE);
    if product > U128_MAX then None else Some(product / MULTIPLIER_ONE)
  }

  // ----- The pass -----

  /** Accounts and queue while minting, with what has been minted and burned. */
  datatype MintBook = MintBook(accounts: Accounts, pendingRewards: map<JobId, PendingReward>, minted: nat, burned: nat)

  function PaidShares(accounts: Accounts, p: PendingReward, actual: u128): Accounts {
    SplitAddsUp(actual);
    var s := SplitOf(actual);
    CreditIfPositive(CreditIfPositive(CreditIfPositive(accounts, p.compute, s.compute), p.verifier, s.verifier),
      p.treasury, s.treasury)
  }

  /** What the budget and the cap leave of a reward. */
  function Granted(reward: u128, budget: u128, minted: nat): (g: u128)
    ensures g <= reward && (minted <= budget ==> minted + g <= budget)
  {
    Max(Min(Min(reward, budget - minted), TOTAL_SUPPLY_CAP - minted), 0)
  }

  function MintOne(base: Columns, b: MintBook, job: JobId, perToken: u128, budget: u128): Option<MintBook>
    requires job in base.pendingRewards
  {
    var p := base.pendingRewards[job];
    match RewardOf(p, perToken)
    case None => None
    case Some(reward) =>
      var actual := Granted(reward, budget, b.minted);
      if actual == 0 then Some(b)
      else if SplitOverflows(actual) then None
      else
        SplitAddsUp(actual);
        match Delegators.Distributed(base, PaidShares(b.accounts, p, actual), p.compute, SplitOf(actual).delegators)
        case None => None
        case Some(accounts) =>
          Some(MintBook(accounts, b.pendingRewards - {job}, b.minted + actual, b.burned + SplitOf(actual).burned))
  }

  predicate Queued(base: Columns, jobs: seq<JobId>) {
    forall j :: j in jobs ==> j in base.pendingRewards
  }

  function MintMany(base: Columns, b: MintBook, jobs: seq<JobId>, perToken: u128, budget: u128): Option<MintBook>
    requires Queued(base, jobs)
    decreases |jobs|
  {
    if jobs == [] then Some(b)
    else
      var before := MintMany(base, b, jobs[..|jobs| - 1], perToken, budget);
      if before.None? then None else MintOne(base, before.value, jobs[|jobs| - 1], perToken, budget)
  }

  function EndingEpoch(height: u64): u64 {
    SatSub64(height / EPOCH_LENGTH_BLOCKS, 1)
  }

  /** The rewards queued in the epoch that ends, in key order. */
  function Ending(base: Columns, height: u64): (jobs: seq<JobId>)
    ensures Queued(base, jobs)
    ensures forall j :: j in jobs <==> j in base.pendingRewards && base.pendingRewards[j].epoch == EndingEpoch(height)
    ensures forall i, k :: 0 <= i < k < |jobs| ==> jobs[i] != jobs[k]
  {
    var due := set j | j in base.pendingRewards && base.pendingRewards[j].epoch == EndingEpoch(height);
    var jobs := JobsInOrder(due);
    assert forall j :: j in jobs <==> j in due;
    jobs
  }

  function TokensOf(base: Columns, jobs: seq<JobId>): nat
    requires Queued(base, jobs)
  {
    if jobs == [] then 0 else TokensOf(base, jobs[..|jobs| - 1]) + base.pendingRewards[jobs[|jobs| - 1]].outputTokens
  }

  function PerToken(budget: u128, tokens: nat): u128 {
    if tokens == 0 then 0 else
      DivLe(budget, budget, tokens);
      budget / tokens
  }

  /** The book after the mint at an epoch boundary; `None` on overflow. */
  function Mint(base: Columns, accounts: Accounts, pending: map<JobId, PendingReward>, height: u64): Option<MintBook> {
    var jobs := Ending(base, height);
    var start := MintBook(accounts, pending, 0, 0);
    if jobs == [] then Some(start)
    else if TokensOf(base, jobs) > U64_MAX then None
    else
      match EpochBudget(height)
      case None => None
      case Some(budget) => MintMany(base, start, jobs, PerToken(budget, TokensOf(base, jobs)), budget)
  }

  function WithMint(c: Columns, b: MintBook): Columns {
    c.(accounts := b.accounts, pendingRewards := b.pendingRewards)
  }

  // ----- The procedure -----

  method SumTokens(base: Columns, jobs: seq<JobId>) returns (tokens: nat)
    requires Queued(base, jobs)
    ensures tokens == TokensOf(base, jobs)
  {
    tokens := 0;
    assert jobs[..0] == [];
    for i := 0 to |jobs|
      invariant tokens == TokensOf(base, jobs[..i])
    {
      assert jobs[..i + 1][..i] == jobs[..i];
      tokens := tokens + base.pendingRewards[jobs[i]].outputTokens;
    }
    assert jobs[..|jobs|] == jobs;
  }

  method PayShares(ctx: BlockCtx, p: PendingReward, actual: u128)
    requires ctx.Valid()
    modifies ctx
    ensures ctx.Valid() && ctx.live == old(ctx.live).(accounts := PaidShares(old(ctx.live).accounts, p, actual))
  {
    SplitAddsUp(actual);
    var s := SplitOf(actual);
    ctx.CreditLine(p.compute, s.compute);
    ctx.CreditLine(p.verifier, s.verifier);
    ctx.CreditLine(p.treasury, s.treasury);
  }

  /** The live ledger during the pass. */
  predicate Minting(before: Columns, live: Columns, b: Option<MintBook>, minted: nat, overflow: bool) {
    overflow == b.None? && (overflow || (live == WithMint(before, b.value) && minted == b.value.minted))
  }

  method MintReward(ctx: BlockCtx, job: JobId, perToken: u128, budget: u128, minted: nat, ghost before: Columns,
      ghost b: MintBook)
    returns (minted': nat, overflow: bool)
    requires ctx.Valid() && job in ctx.state.db.pendingRewards && Minting(before, ctx.live, Some(b), minted, false)
    modifies ctx
    ensures ctx.Valid() && Minting(before, ctx.live, MintOne(ctx.state.db, b, job, perToken, budget), minted', overflow)
  {
    hide RewardOf, PaidShares, Delegators.Distributed, Granted, SplitOf;
    var p := ctx.state.db.pendingRewards[job];
    minted', overflow := minted, true;
    var reward := RewardOf(p, perToken);
    if reward.Some? {
      var actual := Granted(reward.value, budget, minted);
      if actual == 0 {
        overflow := false;
      } else if !SplitOverflows(actual) {
        SplitAddsUp(actual);
        PayShares(ctx, p, actual);
        overflow := Delegators.DistributeToDelegators(ctx, p.compute, SplitOf(actual).delegators);
        if !overflow {
          ctx.Put(WritePendingReward(job, None));
          minted' := minted + actual;
        }
      }
    }
  }

  lemma StartsMinting(c: Columns)
    ensures Minting(c, c, Some(MintBook(c.accounts, c.pendingRewards, 0, 0)), 0, false)
  {
  }

  lemma MintNone(base: Columns, b: MintBook, perToken: u128, budget: u128)
    ensures MintMany(base, b, [], perToken, budget) == Some(b)
  {
  }

  lemma MintSnoc(base: Columns, b: MintBook, jobs: seq<JobId>, job: JobId, perToken: u128, budget: u128)
    requires Queued(base, jobs) && job in base.pendingRewards
    ensures Queued(base, jobs + [job])
    ensures var before := MintMany(base, b, jobs, perToken, budget);
      MintMany(base, b, jobs + [job], perToken, budget) ==
        if before.None? then None else MintOne(base, before.value, job, perToken, budget)
  {
    hide MintOne;
    assert (jobs + [job])[..|jobs|] == jobs;
  }

  lemma {:induction false} MintStuck(base: Columns, b: MintBook, jobs: seq<JobId>, n: nat, perToken: u128, budget: u128)
    requires Queued(base, jobs) && n <= |jobs| && Queued(base, jobs[..n])
      && MintMany(base, b, jobs[..n], perToken, budget).None?
    ensures MintMany(base, b, jobs, perToken, budget).None?
    decreases |jobs|
  {
    hide MintOne;
    if n == |jobs| {
      assert jobs[..n] == jobs;
    } else {
      assert jobs[..|jobs| - 1][..n] == jobs[..n];
      MintStuck(base, b, jobs[..|jobs| - 1], n, perToken, budget);
    }
  }

  method MintAll(ctx: BlockCtx, jobs: seq<JobId>, perToken: u128, budget: u128) returns (overflow: bool)
    requires ctx.Valid() && Queued(ctx.state.db, jobs)
    modifies ctx
    ensures ctx.Valid()
    ensures var start := MintBook(old(ctx.live).accounts, old(ctx.live).pendingRewards, 0, 0);
      var r := MintMany(ctx.state.db, start, jobs, perToken, budget);
      overflow == r.None? && (overflow || ctx.live == WithMint(old(ctx.live), r.value))
  {
    ghost var base, before := ctx.state.db, ctx.live;
    ghost var start := MintBook(before.accounts, before.pendingRewards, 0, 0);
    var minted := 0;
    overflow := false;
    var i := 0;
    assert jobs[..0] == [];
    hide MintOne, WithMint, MintMany;
    assert Minting(before, ctx.live, Some(start), 0, false) by { StartsMinting(before); }
    MintNone(base, start, perToken, budget);
    while i < |jobs| && !overflow
      invariant ctx.Valid() && i <= |jobs| && Queued(base, jobs[..i])
      invariant Minting(before, ctx.live, MintMany(base, start, jobs[..i], perToken, budget), minted, overflow)
    {
      MintSnoc(base, start, jobs[..i], jobs[i], perToken, budget);
      assert jobs[..i + 1] == jobs[..i] + [jobs[i]];
      minted, overflow := MintReward(ctx, jobs[i], perToken, budget, minted, before,
        MintMany(base, start, jobs[..i], perToken, budget).value);
      i := i + 1;
    }
    if overflow {
      MintStuck(base, start, jobs, i, perToken, budget);
    } else {
      assert jobs[..i] == jobs;
    }
  }

  /** Mints the queued rewards of the epoch that ends. */
  method EpochBoundaryMint(ctx: BlockCtx, height: u64) returns (overflow: bool)
    requires ctx.Valid()
    modifies ctx
    ensures ctx.Valid()
    ensures var r := Mint(ctx.state.db, old(ctx.live).accounts, old(ctx.live).pendingRewards, height);
      overflow == r.None? && (overflow || ctx.live == WithMint(old(ctx.live), r.value))
  {
    hide MintMany, EpochBudget, PerToken, TokensOf, Ending;
    var jobs := Ending(ctx.state.db, height);
    overflow := false;
    if jobs != [] {
      var tokens := SumTokens(ctx.state.db, jobs);
      var budget := EpochBudget(height);
      if tokens > U64_MAX || budget.None? {
        overflow := true;
      } else {
        overflow := MintAll(ctx, jobs, PerToken(budget.value, tokens), budget.value);
      }
    }
  }

  // ----- What the mint guarantees -----

  lemma {:induction false} TokensOfMember(base: Columns, jobs: seq<JobId>, job: JobId)
    requires Queued(base, jobs) && job in jobs
    ensures base.pendingRewards[job].outputTokens <= TokensOf(base, jobs)
  {
    if job != jobs[|jobs| - 1] {
      TokensOfMember(base, jobs[..|jobs| - 1], job);
    }
  }

  lemma BaseWithinBudget(tokens: u32, total: nat, budget: u128)
    requires tokens <= total
    ensures BaseReward(tokens, PerToken(budget, total)) <= budget
  {
    var perToken := PerToken(budget, total);
    if total > 0 {
      assert perToken * total <= budget;
      MulMono(perToken, tokens, total);
    }
    var rate := SatMul128(tokens, perToken);
    assert rate <= budget;
    MulMono(MULTIPLIER_ONE, 0, rate);
    DivLe(SatMul128(rate, MULTIPLIER_ONE), rate, MULTIPLIER_ONE);
  }

  lemma ScaledFits(reward: nat, tee: u32, https: u32)
    requires reward <= 120_000_000 * ATOMS_PER_ARK / EPOCHS_PER_YEAR
    ensures 0 <= tee * https && Scaled(reward, tee * https / MULTIPLIER_ONE) <= U128_MAX
  {
    MulMono(tee, 0, https);
    MulMono(tee, https, U32_MAX);
    MulMono(U32_MAX, tee, U32_MAX);
    var bps: nat := tee * https / MULTIPLIER_ONE;
    assert bps <= U32_MAX * U32_MAX;
    MulMono(reward, bps, U32_MAX * U32_MAX);
    MulMono(U32_MAX * U32_MAX, reward, 120_000_000 * ATOMS_PER_ARK / EPOCHS_PER_YEAR);
  }

  /** No queued reward overflows: the rate shares the budget by tokens. */
  lemma RewardFits(base: Columns, jobs: seq<JobId>, job: JobId, height: u64)
    requires Queued(base, jobs) && job in jobs && EpochBudget(height).Some?
    ensures RewardOf(base.pendingRewards[job], PerToken(EpochBudget(height).value, TokensOf(base, jobs))).Some?
  {
    var p, budget := base.pendingRewards[job], EpochBudget(height).value;
    TokensOfMember(base, jobs, job);
    BaseWithinBudget(p.outputTokens, TokensOf(base, jobs), budget);
    var base0 := BaseReward(p.outputTokens, PerToken(budget, TokensOf(base, jobs)));
    ScaledFits(base0, p.teeBps, p.httpsBps);
  }

  /** The supply cap never binds: every boundary starts counting from zero, and no epoch's
      budget reaches the cap. */
  lemma CapNeverBinds(reward: u128, height: u64, minted: nat)
    requires EpochBudget(height).Some? && minted <= EpochBudget(height).value
    ensures Granted(reward, EpochBudget(height).value, minted) == Min(reward, EpochBudget(height).value - minted)
  {
  }

  ghost function MintedTotal(b: MintBook): int {
    Sum(b.accounts, Supply.Balance) + b.burned - b.minted
  }

  lemma PaidSharesSum(accounts: Accounts, p: PendingReward, actual: u128)
    requires Sum(accounts, Supply.Balance) + actual <= U128_MAX
    ensures Sum(PaidShares(accounts, p, actual), Supply.Balance) + SplitOf(actual).burned
      + SplitOf(actual).delegators ==
      Sum(accounts, Supply.Balance) + actual
  {
    SplitAddsUp(actual);
    hide CreditIfPositive;
    var s := SplitOf(actual);
    var one := CreditIfPositive(accounts, p.compute, s.compute);
    var two := CreditIfPositive(one, p.verifier, s.verifier);
    Supply.CreditSum(accounts, p.compute, s.compute);
    Supply.CreditSum(one, p.verifier, s.verifier);
    Supply.CreditSum(two, p.treasury, s.treasury);
  }

  lemma BurnedIsPart(actual: u128)
    ensures 0 <= SplitOf(actual).burned <= actual && (actual > 0 ==> SplitOf(actual).burned < actual)
  {
  }

  /** One reward: balances grow by what is minted less what is burned. */
  lemma MintOneSum(base: Columns, b: MintBook, job: JobId, perToken: u128, budget: u128)
    requires job in base.pendingRewards && MintOne(base, b, job, perToken, budget).Some?
    requires b.minted <= budget && b.burned <= b.minted && MintedTotal(b) + budget <= U128_MAX
    ensures var a := MintOne(base, b, job, perToken, budget).value;
      && b.minted <= a.minted <= budget && a.burned <= a.minted && MintedTotal(a) == MintedTotal(b)
      && a.minted - a.burned >= b.minted - b.burned
  {
    hide RewardOf, PaidShares, Delegators.Distributed, SplitOf;
    var p := base.pendingRewards[job];
    var actual := Granted(RewardOf(p, perToken).value, budget, b.minted);
    if actual > 0 {
      BurnedIsPart(actual);
      SplitAddsUp(actual);
      PaidSharesSum(b.accounts, p, actual);
      Delegators.DistributedAddsTotal(base, PaidShares(b.accounts, p, actual), p.compute, SplitOf(actual).delegators);
    }
  }

  /** The whole pass: at most the budget is minted, and balances grow by exactly what is
      minted less what is burned. */
  lemma {:induction false} MintManySum(base: Columns, b: MintBook, jobs: seq<JobId>, perToken: u128, budget: u128)
    requires Queued(base, jobs) && MintMany(base, b, jobs, perToken, budget).Some?
    requires b.minted == b.burned == 0 && Sum(b.accounts, Supply.Balance) + budget <= U128_MAX
    ensures var a := MintMany(base, b, jobs, perToken, budget).value;
      a.minted <= budget && a.burned <= a.minted && MintedTotal(a) == MintedTotal(b)
    decreases |jobs|
  {
    hide MintOne;
    if jobs != [] {
      MintManySum(base, b, jobs[..|jobs| - 1], perToken, budget);
      MintOneSum(base, MintMany(base, b, jobs[..|jobs| - 1], perToken, budget).value, jobs[|jobs| - 1], perToken,
        budget);
    }
  }

  function BudgetOr0(height: u64): u128 {
    EpochBudget(height).GetOr(0)
  }

  lemma MintSum(base: Columns, accounts: Accounts, pending: map<JobId, PendingReward>, height: u64)
    requires Mint(base, accounts, pending, height).Some?
      && Sum(accounts, Supply.Balance) + BudgetOr0(height) <= U128_MAX
    ensures var a := Mint(base, accounts, pending, height).value;
      && a.minted <= BudgetOr0(height) && a.burned <= a.minted
      && Sum(a.accounts, Supply.Balance) + a.burned == Sum(accounts, Supply.Balance) + a.minted
  {
    hide MintMany, PerToken, TokensOf, Ending, EpochBudget;
    var jobs := Ending(base, height);
    if jobs != [] {
      var budget := EpochBudget(height).value;
      MintManySum(base, MintBook(accounts, pending, 0, 0), jobs, PerToken(budget, TokensOf(base, jobs)), budget);
    }
  }

  /** No queued reward is worth anything; on the committed state alone. */
  predicate NothingEarned(base: Columns, height: u64) {
    var jobs := Ending(base, height);
    jobs == [] ||
      (TokensOf(base, jobs) <= U64_MAX && EpochBudget(height).Some? &&
       forall j :: j in jobs ==>
         RewardOf(base.pendingRewards[j], PerToken(EpochBudget(height).value, TokensOf(base, jobs))) == Some(0))
  }

  lemma {:induction false} WorthlessMint(base: Columns, b: MintBook, jobs: seq<JobId>, perToken: u128, budget: u128)
    requires Queued(base, jobs) && forall j :: j in jobs ==> RewardOf(base.pendingRewards[j], perToken) == Some(0)
    ensures MintMany(base, b, jobs, perToken, budget) == Some(b)
    decreases |jobs|
  {
    hide RewardOf, PaidShares, Delegators.Distributed;
    if jobs != [] {
      WorthlessMint(base, b, jobs[..|jobs| - 1], perToken, budget);
      assert jobs[|jobs| - 1] in jobs;
    }
  }

  /** Whatever is minted, some of it reaches a balance. */
  lemma {:induction false} MintedMoreThanBurned(base: Columns, b: MintBook, jobs: seq<JobId>, perToken: u128,
      budget: u128)
    requires Queued(base, jobs) && MintMany(base, b, jobs, perToken, budget).Some?
    requires b.minted == b.burned == 0 && Sum(b.accounts, Supply.Balance) + budget <= U128_MAX
    ensures var a := MintMany(base, b, jobs, perToken, budget).value; a.minted == 0 || a.minted > a.burned
    decreases |jobs|
  {
    hide RewardOf, PaidShares, Delegators.Distributed, SplitOf;
    if jobs != [] {
      var earlier, last := jobs[..|jobs| - 1], jobs[|jobs| - 1];
      MintedMoreThanBurned(base, b, earlier, perToken, budget);
      MintManySum(base, b, earlier, perToken, budget);
      var before := MintMany(base, b, earlier, perToken, budget).value;
      MintOneSum(base, before, last, perToken, budget);
      BurnedIsPart(Granted(RewardOf(base.pendingRewards[last], perToken).value, budget, before.minted));
    }
  }

  /** A reward worth something is minted, if only in part, while budget is left. */
  lemma {:induction false} WorthMints(base: Columns, b: MintBook, jobs: seq<JobId>, perToken: u128, budget: u128,
      job: JobId)
    requires Queued(base, jobs) && job in jobs && MintMany(base, b, jobs, perToken, budget).Some?
    requires RewardOf(base.pendingRewards[job], perToken) != Some(0)
    requires b.minted == b.burned == 0 < budget <= TOTAL_SUPPLY_CAP
      && Sum(b.accounts, Supply.Balance) + budget <= U128_MAX
    ensures MintMany(base, b, jobs, perToken, budget).value.minted > MintMany(base, b, jobs, perToken,
      budget).value.burned
    decreases |jobs|
  {
    hide RewardOf, PaidShares, Delegators.Distributed;
    var earlier, last := jobs[..|jobs| - 1], jobs[|jobs| - 1];
    MintManySum(base, b, earlier, perToken, budget);
    var before := MintMany(base, b, earlier, perToken, budget).value;
    MintOneSum(base, before, last, perToken, budget);
    if job in earlier {
      WorthMints(base, b, earlier, perToken, budget, job);
    } else if before.minted == 0 {
      BurnedIsPart(Granted(RewardOf(base.pendingRewards[job], perToken).value, budget, 0));
    } else {
      MintedMoreThanBurned(base, b, earlier, perToken, budget);
    }
  }

  lemma NoRateNoReward(p: PendingReward)
    ensures RewardOf(p, 0) == Some(0)
  {
    MulMono(p.teeBps, 0, p.httpsBps);
    assert BaseReward(p.outputTokens, 0) == 0;
    assert Scaled(0, p.teeBps * p.httpsBps / MULTIPLIER_ONE) == 0;
  }

  lemma RateNeedsBudget(budget: u128, tokens: nat, p: PendingReward)
    requires RewardOf(p, PerToken(budget, tokens)) != Some(0)
    ensures budget > 0
  {
    if budget == 0 {
      NoRateNoReward(p);
    }
  }

  lemma BudgetBelowCap(height: u64)
    requires EpochBudget(height).Some?
    ensures EpochBudget(height).value <= TOTAL_SUPPLY_CAP
  {
  }

  /** The mint goes through without moving a balance exactly when no reward of the ending
      epoch is worth anything. */
  lemma MintIdleExactly(base: Columns, accounts: Accounts, pending: map<JobId, PendingReward>, height: u64)
    requires Sum(accounts, Supply.Balance) + BudgetOr0(height) <= U128_MAX
    ensures var r := Mint(base, accounts, pending, height);
      NothingEarned(base, height) <==> r.Some? && r.value.accounts == accounts
    ensures NothingEarned(base, height) ==>
      Mint(base, accounts, pending, height) == Some(MintBook(accounts, pending, 0, 0))
  {
    hide MintMany, PerToken, TokensOf, Ending, EpochBudget, RewardOf;
    var jobs, start := Ending(base, height), MintBook(accounts, pending, 0, 0);
    if jobs != [] && TokensOf(base, jobs) <= U64_MAX && EpochBudget(height).Some? {
      var budget := EpochBudget(height).value;
      var perToken := PerToken(budget, TokensOf(base, jobs));
      if forall j :: j in jobs ==> RewardOf(base.pendingRewards[j], perToken) == Some(0) {
        WorthlessMint(base, start, jobs, perToken, budget);
      } else if MintMany(base, start, jobs, perToken, budget).Some? {
        var j :| j in jobs && RewardOf(base.pendingRewards[j], perToken) != Some(0);
        RateNeedsBudget(budget, TokensOf(base, jobs), base.pendingRewards[j]);
        BudgetBelowCap(height);
        WorthMints(base, start, jobs, perToken, budget, j);
        MintSum(base, accounts, pending, height);
      }
    }
  }

  /** Where something is earned, the mint raises the balances. */
  lemma MintRaises(base: Columns, accounts: Accounts, pending: map<JobId, PendingReward>, height: u64)
    requires !NothingEarned(base, height) && Mint(base, accounts, pending, height).Some?
    requires Sum(accounts, Supply.Balance) + BudgetOr0(height) <= U128_MAX
    ensures Sum(accounts, Supply.Balance) < Sum(Mint(base, accounts, pending, height).value.accounts, Supply.Balance)
  {
    hide MintMany, PerToken, TokensOf, Ending, EpochBudget, RewardOf;
    var jobs, start := Ending(base, height), MintBook(accounts, pending, 0, 0);
    var budget := EpochBudget(height).value;
    var perToken := PerToken(budget, TokensOf(base, jobs));
    var j :| j in jobs && RewardOf(base.pendingRewards[j], perToken) != Some(0);
    RateNeedsBudget(budget, TokensOf(base, jobs), base.pendingRewards[j]);
    BudgetBelowCap(height);
    WorthMints(base, start, jobs, perToken, budget, j);
    MintSum(base, accounts, pending, height);
  }
}
