/**
 The emission schedule against the supply cap, and the carry-over of unspent budget: what all
 epoch boundaries of a chain mint together, and what the documented rule would have added.
 */
module SupplyCap {
  import opened Numeric
  import opened Division
  import opened Types
  import opened LedgerSpec
  import opened Emission
  import opened Blocks
  import opened Rewards
  import Chain
  import ChainSupply
  import Conservation
  import Supply

  // ----- The schedule -----

  /** All that the schedule ever emits, in whole ARK. */
  const SCHEDULE_TOTAL_ARK: nat := 795_000_000

  function Annual(year: nat): (ark: nat)
    ensures ark <= 120_000_000
  {
    if year > U64_MAX then 0 else AnnualEmissionArk(year).GetOr(0)
  }

  function YearsTotal(years: nat): nat {
    if years == 0 then 0 else YearsTotal(years - 1) + Annual(years - 1)
  }

  lemma {:induction false} HalvedOnce(n: nat, times: nat)
    ensures Halved(n, times + 1) == Halved(n, times) / 2
  {
    if times > 0 {
      HalvedOnce(n / 2, times - 1);
    }
  }

  lemma TableTotal()
    ensures YearsTotal(16) == 745_000_000
  {
    assert YearsTotal(4) == 395_000_000;
    assert YearsTotal(8) == 595_000_000;
    assert YearsTotal(12) == 695_000_000;
  }

  function Halvings(year: nat): nat
    requires 16 <= year
  {
    (year - 12) / 4
  }

  lemma TailYear(year: nat)
    requires 16 <= year
    ensures Annual(year) <= Halved(12_500_000, Halvings(year))
  {
  }

  /** What the halvings from `year` on can still add. */
  function TailBound(year: nat): nat
    requires 16 <= year
  {
    (8 - year % 4) * Halved(12_500_000, Halvings(year))
  }

  lemma LastOfFour(h: nat)
    ensures h + 8 * (h / 2) <= 5 * h
  {
  }

  lemma TailStep(year: nat)
    requires 16 <= year
    ensures Annual(year) + TailBound(year + 1) <= TailBound(year)
  {
    TailYear(year);
    hide Annual, Halved;
    var h, q := Halved(12_500_000, Halvings(year)), year % 4;
    if q == 3 {
      HalvedOnce(12_500_000, Halvings(year));
      assert Halvings(year + 1) == Halvings(year) + 1 && (year + 1) % 4 == 0;
      LastOfFour(h);
    } else {
      assert Halvings(year + 1) == Halvings(year) && (year + 1) % 4 == q + 1;
      AddTimes(1, 7 - q, h);
    }
  }

  lemma {:induction false} YearsWithTail(years: nat)
    requires 16 <= years
    ensures YearsTotal(years) + TailBound(years) <= SCHEDULE_TOTAL_ARK
  {
    if years == 16 {
      TableTotal();
      assert Halved(12_500_000, 1) == Halved(6_250_000, 0) == 6_250_000;
    } else {
      YearsWithTail(years - 1);
      TailStep(years - 1);
    }
  }

  lemma {:induction false} YearsGrow(years: nat, more: nat)
    requires years <= more
    ensures YearsTotal(years) <= YearsTotal(more)
  {
    if years < more {
      YearsGrow(years, more - 1);
    }
  }

  /** However long the chain runs, the schedule emits at most 795 million ARK. */
  lemma ScheduleConverges(years: nat)
    ensures YearsTotal(years) <= SCHEDULE_TOTAL_ARK
  {
    if years < 16 {
      YearsGrow(years, 16);
      YearsWithTail(16);
    } else {
      YearsWithTail(years);
    }
  }

  // ----- Epochs -----

  function PerEpoch(year: nat): nat {
    Annual(year) * ATOMS_PER_ARK / EPOCHS_PER_YEAR
  }

  /** The budgets of the first `epochs` boundaries. */
  function EpochsTotal(epochs: nat): nat {
    if epochs == 0 then 0 else EpochsTotal(epochs - 1) + PerEpoch(epochs / EPOCHS_PER_YEAR)
  }

  lemma BudgetOfBoundary(height: u64)
    requires height % EPOCH_LENGTH_BLOCKS == 0
    ensures BudgetOr0(height) == PerEpoch(EpochOf(height) / EPOCHS_PER_YEAR)
  {
    assert height / BLOCKS_PER_YEAR == EpochOf(height) / EPOCHS_PER_YEAR;
  }

  lemma YearOfEpochs(year: nat)
    ensures EPOCHS_PER_YEAR * PerEpoch(year) <= Annual(year) * ATOMS_PER_ARK
  {
  }

  lemma EpochInYear(epochs: nat, year: nat, rest: nat)
    requires epochs == year * EPOCHS_PER_YEAR + rest && rest < EPOCHS_PER_YEAR
    ensures epochs / EPOCHS_PER_YEAR == year && epochs % EPOCHS_PER_YEAR == rest
  {
    DivUnique(epochs, year, EPOCHS_PER_YEAR);
  }

  /** So many whole years and, of the year after, so many boundaries and one more. */
  lemma {:induction false} EpochsWithinYears(year: nat, rest: nat)
    requires rest < EPOCHS_PER_YEAR
    ensures EpochsTotal(year * EPOCHS_PER_YEAR + rest) <= YearsTotal(year) * ATOMS_PER_ARK + (rest + 1) * PerEpoch(year)
    decreases year, rest
  {
    hide PerEpoch, Annual;
    var epochs := year * EPOCHS_PER_YEAR + rest;
    EpochInYear(epochs, year, rest);
    if rest > 0 {
      EpochsWithinYears(year, rest - 1);
      AddTimes(rest, 1, PerEpoch(year));
    } else if year > 0 {
      EpochsWithinYears(year - 1, EPOCHS_PER_YEAR - 1);
      YearOfEpochs(year - 1);
      AddTimes(YearsTotal(year - 1), Annual(year - 1), ATOMS_PER_ARK);
    } else {
      assert EpochsTotal(0) == 0;
    }
  }

  lemma OneMoreYear(year: nat)
    ensures YearsTotal(year + 1) == YearsTotal(year) + Annual(year)
  {
  }

  lemma YearEndsBelow(total: nat, years: nat, rest: nat, per: nat, annual: nat)
    requires total <= years * ATOMS_PER_ARK + (rest + 1) * per && rest < EPOCHS_PER_YEAR
    requires EPOCHS_PER_YEAR * per <= annual * ATOMS_PER_ARK && years + annual <= SCHEDULE_TOTAL_ARK
    ensures total <= SCHEDULE_TOTAL_ARK * ATOMS_PER_ARK
  {
    MulMono(per, rest + 1, EPOCHS_PER_YEAR);
  }

  /** However many boundaries there are, their budgets add up to less than the cap. */
  lemma BudgetsBelowCap(epochs: nat)
    ensures EpochsTotal(epochs) <= SCHEDULE_TOTAL_ARK * ATOMS_PER_ARK < TOTAL_SUPPLY_CAP
  {
    hide PerEpoch, Annual, EpochsTotal, YearsTotal;
    var year, rest := epochs / EPOCHS_PER_YEAR, epochs % EPOCHS_PER_YEAR;
    EpochsWithinYears(year, rest);
    OneMoreYear(year);
    ScheduleConverges(year + 1);
    YearOfEpochs(year);
    YearEndsBelow(EpochsTotal(epochs), YearsTotal(year), rest, PerEpoch(year), Annual(year));
  }

  lemma {:induction false} EpochsGrow(epochs: nat, more: nat)
    requires epochs <= more
    ensures EpochsTotal(epochs) <= EpochsTotal(more)
  {
    hide PerEpoch;
    if epochs < more {
      EpochsGrow(epochs, more - 1);
    }
  }

  // ----- Chains -----

  ghost function EpochMint(base: Columns, block: Block): nat {
    if !Accepts(base, block) then 0
    else
      ChainSupply.EpochBook(base, SlashAll(base, RunAll(base, block.txs).live, block.txs).value, block.header).minted
  }

  /** What the epoch boundaries of a chain have minted. */
  ghost function EpochMints(genesis: Columns, blocks: seq<Block>): nat {
    if blocks == [] then 0
    else
      var earlier := blocks[..|blocks| - 1];
      EpochMints(genesis, earlier) + EpochMint(Chain.After(genesis, earlier), blocks[|blocks| - 1])
  }

  lemma MintWithinBudget(base: Columns, accounts: Accounts, pending: Queue, height: u64)
    requires Mint(base, accounts, pending, height).Some?
    ensures Mint(base, accounts, pending, height).value.minted <= BudgetOr0(height)
  {
    hide MintMany, TokensOf, PerToken, EpochBudget, PaidOf, Ending;
    var jobs := Ending(base, height);
    if jobs != [] {
      var budget := EpochBudget(height).value;
      MintDequeues(base, MintBook(accounts, pending, 0, 0), jobs, PerToken(budget, TokensOf(base, jobs)), budget);
    }
  }

  lemma BlockMintWithinBudget(base: Columns, block: Block)
    ensures EpochMint(base, block) <= if IsEpochBoundary(block.header.height) then BudgetOr0(block.header.height) else 0
  {
    if Accepts(base, block) {
      hide RunAll, SlashAll, Mint, BudgetOr0;
      var slashed := SlashAll(base, RunAll(base, block.txs).live, block.txs).value;
      if Mint(base, slashed.accounts, slashed.pendingRewards, block.header.height).Some? {
        MintWithinBudget(base, slashed.accounts, slashed.pendingRewards, block.header.height);
      }
    }
  }

  /** Each boundary has its own epoch, later than all before it. */
  lemma BudgetStep(base: Columns, block: Block)
    requires Accepts(base, block) && Rises(base, block)
    ensures EpochsTotal(EpochOf(base.height)) +
      (if IsEpochBoundary(block.header.height) then BudgetOr0(block.header.height) else 0) <=
      EpochsTotal(EpochOf(Next(base, block).height))
  {
    hide Accepts, Next, BudgetOr0, PerEpoch;
    var h := block.header.height;
    AcceptedQueue(base, block);
    if IsEpochBoundary(h) {
      BoundaryEndsCurrent(base.height, h);
      BudgetOfBoundary(h);
      EpochsGrow(EpochOf(base.height), EpochOf(h) - 1);
    } else {
      EpochsGrow(EpochOf(base.height), EpochOf(h));
    }
  }

  lemma MintStep(base: Columns, block: Block, before: nat)
    requires before <= EpochsTotal(EpochOf(base.height)) && (Accepts(base, block) ==> Rises(base, block))
    ensures before + EpochMint(base, block) <= EpochsTotal(EpochOf(Next(base, block).height))
  {
    if Accepts(base, block) {
      hide EpochMint, Accepts, Next, BudgetOr0, EpochsTotal, EpochOf, IsEpochBoundary;
      BlockMintWithinBudget(base, block);
      BudgetStep(base, block);
    } else {
      RefusedChangesNothing(base, block);
    }
  }

  lemma {:induction false} ChainMintsWithinSchedule(genesis: Columns, blocks: seq<Block>)
    requires Rising(genesis, blocks)
    ensures EpochMints(genesis, blocks) <= EpochsTotal(EpochOf(Chain.After(genesis, blocks).height))
  {
    hide EpochMint, Accepts, Next, EpochsTotal, Rises;
    if blocks != [] {
      var earlier := blocks[..|blocks| - 1];
      ChainMintsWithinSchedule(genesis, earlier);
      MintStep(Chain.After(genesis, earlier), blocks[|blocks| - 1], EpochMints(genesis, earlier));
    }
  }

  /** Over every chain of rising heights the boundaries together mint at most 795 million ARK, below
      the cap of a billion that no boundary compares with. */
  lemma ChainMintsBelowCap(genesis: Columns, blocks: seq<Block>)
    requires Rising(genesis, blocks)
    ensures EpochMints(genesis, blocks) <= SCHEDULE_TOTAL_ARK * ATOMS_PER_ARK < TOTAL_SUPPLY_CAP
  {
    hide EpochMints, EpochsTotal, Chain.After;
    ChainMintsWithinSchedule(genesis, blocks);
    BudgetsBelowCap(EpochOf(Chain.After(genesis, blocks).height));
  }

  lemma {:induction false} NoMintsListed(txs: seq<SignedTx>)
    requires forall stx :: stx in txs ==> !stx.tx.RewardMint?
    ensures Conservation.MintedIn(txs) == 0
  {
    if txs != [] {
      assert txs[|txs| - 1] in txs;
      NoMintsListed(txs[..|txs| - 1]);
    }
  }

  lemma BlockMints(base: Columns, block: Block)
    requires forall stx :: stx in Landing(base, block) ==> !stx.tx.RewardMint?
    ensures ChainSupply.MovesOf(base, block).minted == EpochMint(base, block)
  {
    hide RunAll, SlashAll, Accepts, Conservation.BurnedIn, Conservation.GapsIn, Conservation.ExcessIn;
    hide ChainSupply.EpochBook, ChainSupply.EpochBound, Conservation.MintedIn;
    NoMintsListed(Landing(base, block));
  }

  /** Without reward-mint transactions nothing else mints: all that is ever minted stays below the cap. */
  lemma {:induction false} AllMintsBelowCap(genesis: Columns, blocks: seq<Block>)
    requires Rising(genesis, blocks) && forall stx :: stx in Chain.Landed(genesis, blocks) ==> !stx.tx.RewardMint?
    ensures ChainSupply.MovesOver(genesis, blocks).minted == EpochMints(genesis, blocks)
    ensures ChainSupply.MovesOver(genesis, blocks).minted < TOTAL_SUPPLY_CAP
  {
    ChainMintsBelowCap(genesis, blocks);
    if blocks != [] {
      hide ChainSupply.MovesOf, EpochMint, Landing, Next, Accepts, Rises;
      var earlier := blocks[..|blocks| - 1];
      AllMintsBelowCap(genesis, earlier);
      BlockMints(Chain.After(genesis, earlier), blocks[|blocks| - 1]);
    }
  }

  // ----- The documented carry-over -----

  /** The emission state as documented: unspent budget carries to the next epoch's pool. */
  datatype EmissionState = EmissionState(epoch: nat, budget: u128, minted: u128)

  function Remaining(s: EmissionState): u128 {
    SatSub128(s.budget, s.minted)
  }

  function Advanced(s: EmissionState, height: u64): EmissionState {
    if EpochOf(height) <= s.epoch then s
    else EmissionState(EpochOf(height), SatAdd128(BudgetOr0(height), Remaining(s)), 0)
  }

  lemma BudgetFits(height: u64)
    ensures BudgetOr0(height) <= 120_000_000 * ATOMS_PER_ARK
  {
  }

  /** The documented pool of an epoch is the budget the mint uses exactly when nothing was left over. */
  lemma CarryOverLostExactly(s: EmissionState, height: u64)
    requires EpochOf(height) > s.epoch
    ensures Advanced(s, height).budget == BudgetOr0(height) <==> Remaining(s) == 0
  {
    BudgetFits(height);
    hide BudgetOr0;
  }

  ghost function AfterBlock(s: EmissionState, base: Columns, block: Block): EmissionState {
    if Accepts(base, block) && IsEpochBoundary(block.header.height) then
      var next := Advanced(s, block.header.height);
      next.(minted := SatAdd128(next.minted, Min(EpochMint(base, block), U128_MAX)))
    else s
  }

  /** The documented state after a chain, fed with what the boundaries did mint. */
  ghost function Tracked(genesis: Columns, blocks: seq<Block>): EmissionState {
    if blocks == [] then EmissionState(EpochOf(genesis.height), 0, 0)
    else
      var earlier := blocks[..|blocks| - 1];
      AfterBlock(Tracked(genesis, earlier), Chain.After(genesis, earlier), blocks[|blocks| - 1])
  }

  /** What a boundary was granted and did not mint. */
  ghost function Leaves(base: Columns, block: Block): nat {
    BlockMintWithinBudget(base, block);
    if Accepts(base, block) && IsEpochBoundary(block.header.height) then
      BudgetOr0(block.header.height) - EpochMint(base, block)
    else 0
  }

  /** What the boundaries of a chain were granted and did not mint. */
  ghost function UnspentOver(genesis: Columns, blocks: seq<Block>): nat {
    if blocks == [] then 0
    else
      var earlier := blocks[..|blocks| - 1];
      UnspentOver(genesis, earlier) + Leaves(Chain.After(genesis, earlier), blocks[|blocks| - 1])
  }

  /** The documented state agrees with what is unspent, and the schedule bounds both. */
  ghost predicate Carries(s: EmissionState, unspent: nat, c: Columns) {
    && s.minted <= s.budget && s.budget - s.minted == unspent
    && s.epoch <= EpochOf(c.height) && unspent <= EpochsTotal(EpochOf(c.height))
  }

  lemma CarriesOn(s: EmissionState, unspent: nat, base: Columns, block: Block)
    requires Carries(s, unspent, base) && (Accepts(base, block) ==> Rises(base, block))
    ensures Carries(AfterBlock(s, base, block), unspent + Leaves(base, block), Next(base, block))
  {
    if Accepts(base, block) {
      hide EpochMint, Accepts, Next, BudgetOr0, EpochsTotal;
      var h := block.header.height;
      AcceptedQueue(base, block);
      BlockMintWithinBudget(base, block);
      BudgetStep(base, block);
      BudgetsBelowCap(EpochOf(Next(base, block).height));
      if IsEpochBoundary(h) {
        BoundaryEndsCurrent(base.height, h);
      }
    } else {
      RefusedChangesNothing(base, block);
    }
  }

  lemma NothingUnspent(genesis: Columns)
    ensures Carries(EmissionState(EpochOf(genesis.height), 0, 0), 0, genesis)
  {
    hide EpochsTotal;
  }

  lemma {:induction false} UnspentIsLost(genesis: Columns, blocks: seq<Block>)
    requires Rising(genesis, blocks)
    ensures Carries(Tracked(genesis, blocks), UnspentOver(genesis, blocks), Chain.After(genesis, blocks))
  {
    hide EpochMint, Accepts, Next, Rises, Carries, Leaves, AfterBlock;
    if blocks == [] {
      NothingUnspent(genesis);
    } else {
      var earlier, block := blocks[..|blocks| - 1], blocks[|blocks| - 1];
      UnspentIsLost(genesis, earlier);
      CarriesOn(Tracked(genesis, earlier), UnspentOver(genesis, earlier), Chain.After(genesis, earlier), block);
    }
  }

  /** Over every chain of rising heights the documented pool of the next boundary exceeds the budget
      the mint uses by exactly all that earlier boundaries left unspent. */
  lemma CarryOverLost(genesis: Columns, blocks: seq<Block>, height: u64)
    requires Rising(genesis, blocks) && IsEpochBoundary(height) && Chain.After(genesis, blocks).height < height
    ensures Advanced(Tracked(genesis, blocks), height).budget == BudgetOr0(height) + UnspentOver(genesis, blocks)
  {
    hide Tracked, UnspentOver, Chain.After, BudgetOr0, EpochsTotal;
    UnspentIsLost(genesis, blocks);
    BoundaryEndsCurrent(Chain.After(genesis, blocks).height, height);
    BudgetsBelowCap(EpochOf(Chain.After(genesis, blocks).height));
    BudgetFits(height);
  }
}
