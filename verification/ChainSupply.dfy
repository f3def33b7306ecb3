/**
 Conservation over whole chains: transactions, slashes, the mint and the governance pass of
 every block together.
 */
module ChainSupply {
  import opened Numeric
  import opened MapSums
  import opened Types
  import opened LedgerSpec
  import opened KeyOrder
  import opened Governance
  import opened Blocks
  import opened Supply
  import opened Conservation
  import opened SlashSupply
  import Chain
  import Lifecycle
  import Unbondings
  import Emission
  import ValidatorSet
  import Slashing

  ghost function Forfeits(c: Columns): nat {
    Sum(c.proposals, Forfeit)
  }

  /** Everything the ledger holds, deposits lost to a veto included. */
  ghost function Holdings(c: Columns): nat {
    Total(c) + Forfeits(c)
  }

  /** Transactions neither forfeit nor release deposits. */
  lemma ExtendedForfeits(base: Columns, live: Columns)
    requires Lifecycle.Extended(base, live) && Lifecycle.FreshIds(base)
    ensures Forfeits(live) == Forfeits(base)
  {
    var id := base.nextProposalId;
    SumDelete(live.proposals, Forfeit, id);
    assert live.proposals - {id} == base.proposals;
  }

  // ----- The epoch boundary -----

  lemma HoldingsOfGov(c: Columns, b: GovBook)
    ensures Holdings(WithGov(c, b)) - GovHeld(b) == Holdings(c) - GovHeld(GovOf(c))
    ensures GovHeld(GovOf(c)) <= Holdings(c)
  {
  }

  lemma HoldingsOfMint(c: Columns, validators: map<NodeId, ValidatorInfo>, b: Emission.MintBook)
    ensures Holdings(Emission.WithMint(WithRotation(c, validators), b)) - Sum(b.accounts, Balance) ==
      Holdings(c) - Sum(c.accounts, Balance)
    ensures Sum(c.accounts, Balance) <= Holdings(c)
  {
  }

  /** What the boundary work of a block mints and burns; nothing away from boundaries. */
  ghost function EpochBook(base: Columns, live: Columns, header: Header): Emission.MintBook {
    var idle := Emission.MintBook(live.accounts, live.pendingRewards, 0, 0);
    if IsEpochBoundary(header.height)
      then Emission.Mint(base, live.accounts, live.pendingRewards, header.height).GetOr(idle) else idle
  }

  /** The most a block's boundary work can mint. */
  function EpochBound(header: Header): nat {
    if IsEpochBoundary(header.height) then Emission.BudgetOr0(header.height) else 0
  }

  lemma MintConserves(base: Columns, live: Columns, header: Header)
    requires IsEpochBoundary(header.height) && AfterMint(base, live, header.height).Some?
    requires Holdings(live) + EpochBound(header) <= U128_MAX
    ensures var b := EpochBook(base, live, header);
      && Holdings(AfterMint(base, live, header.height).value) + b.burned == Holdings(live) + b.minted
      && b.minted <= EpochBound(header)
  {
    hide Holdings, Emission.Mint, ValidatorSet.RotatedValidators, Emission.WithMint, WithRotation;
    var validators := ValidatorSet.RotatedValidators(base, live.validators, header.height);
    HoldingsOfMint(live, validators, Emission.Mint(base, live.accounts, live.pendingRewards, header.height).value);
    Emission.MintSum(base, live.accounts, live.pendingRewards, header.height);
  }

  lemma PassConserves(base: Columns, live: Columns, c: Columns, now: u64)
    requires Lifecycle.Extended(base, live) && Lifecycle.SameGov(live, c) && Holdings(c) <= U128_MAX
    requires AfterGovernance(base, c, now).Some?
    ensures Holdings(AfterGovernance(base, c, now).value) == Holdings(c)
  {
    hide Advance, Holdings, GovHeld;
    var ids := IdsInOrder(base.proposals.Keys);
    HoldingsOfGov(c, Advance(base, GovOf(c), ids, now).value);
    AdvanceConserves(base, GovOf(c), ids, now);
  }

  lemma RotatedConserves(base: Columns, live: Columns, header: Header)
    requires Lifecycle.Extended(base, live) && Rotated(base, live, header).Some?
      && Holdings(live) + EpochBound(header) <= U128_MAX
    ensures var b := EpochBook(base, live, header);
      && Holdings(Rotated(base, live, header).value) + b.burned == Holdings(live) + b.minted
      && b.minted <= EpochBound(header)
  {
    if IsEpochBoundary(header.height) {
      Lifecycle.PassStart(base, live, header);
      MintConserves(base, live, header);
      hide Holdings, AfterMint, AfterGovernance, EpochBook, Lifecycle.Extended, Lifecycle.SameGov;
      PassConserves(base, live, AfterMint(base, live, header.height).value, header.timestamp);
    }
  }

  // ----- One block -----

  ghost predicate Ready(c: Columns) {
    Lifecycle.FreshIds(c) && IdsBelow(c.unbondings, c.nextUnbondId)
  }

  lemma SealedHoldings(c: Columns, header: Header, gas: u64)
    ensures Holdings(Sealed(c, header, gas)) == Holdings(c)
    ensures Sealed(c, header, gas).unbondings == c.unbondings && Sealed(c, header, gas).nextUnbondId == c.nextUnbondId
  {
  }

  /** What an accepted block burns, mints and gets wrong, and a bound on what it creates. */
  datatype Flows = Moves(burned: nat, minted: nat, gap: int, bound: nat)

  ghost function MovesOf(base: Columns, block: Block): Flows {
    if !Accepts(base, block) then Moves(0, 0, 0, 0)
    else
      var pass := RunAll(base, block.txs);
      var b := EpochBook(base, SlashAll(base, pass.live, block.txs).value, block.header);
      Moves(
        BurnedIn(base, pass.kept) + SlashBurnedIn(base, block.txs) + b.burned,
        MintedIn(pass.kept) + b.minted,
        GapsIn(base, block.txs) + SlashGaps(base, pass.live, block.txs),
        MintedIn(pass.kept) + ExcessIn(base, block.txs) + SlashExcess(base, pass.live, block.txs)
          + EpochBound(block.header))
  }

  /** One block's equation, from one state to the next. */
  ghost predicate Balances(before: Columns, after: Columns, m: Flows) {
    Holdings(after) + m.burned == Holdings(before) + m.minted + m.gap && m.minted + m.gap <= m.bound
  }

  lemma {:induction false} SlashIds(base: Columns, live: Columns, txs: seq<SignedTx>)
    requires SlashAll(base, live, txs).Some? && Unbondings.KeepsImmature(base, live)
      && IdsBelow(live.unbondings, live.nextUnbondId)
    ensures var after := SlashAll(base, live, txs).value; IdsBelow(after.unbondings, after.nextUnbondId)
  {
    hide SlashAll;
    Unbondings.SlashesTrim(base, live, txs, Unbondings.AccusedNodes(txs));
  }

  lemma SlashForfeits(base: Columns, live: Columns, txs: seq<SignedTx>)
    requires SlashAll(base, live, txs).Some?
    ensures Forfeits(SlashAll(base, live, txs).value) == Forfeits(live)
  {
    hide SlashAll;
    Lifecycle.SlashesKeepGov(base, live, txs);
  }

  lemma SlashedBlock(base: Columns, txs: seq<SignedTx>)
    requires Ready(base) && Unbondings.SoundPending(base.unbondings, base.nextUnbondId)
    requires RunAll(base, txs).Pass? && SlashAll(base, RunAll(base, txs).live, txs).Some?
    requires var pass := RunAll(base, txs);
      Holdings(base) + MintedIn(pass.kept) + ExcessIn(base, txs) + SlashExcess(base, pass.live, txs) <= U128_MAX
    ensures var pass := RunAll(base, txs);
      var slashed := SlashAll(base, pass.live, txs).value;
      && Holdings(slashed) + BurnedIn(base, pass.kept) + SlashBurnedIn(base, txs) ==
         Holdings(base) + MintedIn(pass.kept) + GapsIn(base, txs) + SlashGaps(base, pass.live, txs)
      && GapsIn(base, txs) + SlashGaps(base, pass.live, txs) <= ExcessIn(base, txs) + SlashExcess(base, pass.live, txs)
      && Lifecycle.Extended(base, slashed) && IdsBelow(slashed.unbondings, slashed.nextUnbondId)
  {
    hide RunAll, SlashAll, Total, BurnedIn, MintedIn, GapsIn, ExcessIn, SlashGaps, SlashExcess, SlashBurnedIn, IdsBelow;
    hide Lifecycle.Extended, Lifecycle.FreshIds, Lifecycle.SameGov, Forfeits, Unbondings.SoundPending,
      Unbondings.KeepsImmature;
    var live := RunAll(base, txs).live;
    BlockTotal(base, txs);
    SlashAllTotal(base, live, txs);
    Lifecycle.PassProposals(base, txs);
    ExtendedForfeits(base, live);
    SlashForfeits(base, live, txs);
    Lifecycle.SlashesKeepGov(base, live, txs);
    Lifecycle.ExtendedAfterSlash(base, live, SlashAll(base, live, txs).value);
    Unbondings.PassKeepsImmature(base, txs);
    SlashIds(base, live, txs);
  }

  /** Every accepted block, whatever it contains. */
  lemma AcceptedBalances(base: Columns, block: Block)
    requires Ready(base) && Unbondings.SoundPending(base.unbondings, base.nextUnbondId) && Accepts(base, block)
    requires Holdings(base) + MovesOf(base, block).bound <= U128_MAX
    ensures Balances(base, Next(base, block), MovesOf(base, block))
    ensures IdsBelow(Next(base, block).unbondings, Next(base, block).nextUnbondId)
  {
    hide RunAll, SlashAll, Rotated, Holdings, BurnedIn, MintedIn, GapsIn, ExcessIn, SlashGaps, SlashExcess,
      SlashBurnedIn, IdsBelow;
    hide Lifecycle.Extended, Unbondings.SoundPending, Sealed, EpochBook, EpochBound, Ready;
    var pass := RunAll(base, block.txs);
    SlashedBlock(base, block.txs);
    var slashed := SlashAll(base, pass.live, block.txs).value;
    RotatedConserves(base, slashed, block.header);
    RotatedKeepsRest(base, slashed, block.header);
    SealedHoldings(Rotated(base, slashed, block.header).value, block.header, pass.gas);
  }

  lemma NextBalances(base: Columns, block: Block)
    requires Ready(base) && Unbondings.SoundPending(base.unbondings, base.nextUnbondId)
    requires Holdings(base) + MovesOf(base, block).bound <= U128_MAX
    ensures Balances(base, Next(base, block), MovesOf(base, block)) && Ready(Next(base, block))
  {
    Lifecycle.NextSteps(base, block);
    if Accepts(base, block) {
      hide Accepts, Next, MovesOf, Balances, Lifecycle.FreshIds, IdsBelow, Lifecycle.PhaseStep, Unbondings.SoundPending,
        Holdings;
      AcceptedBalances(base, block);
    }
  }

  // ----- Chains -----

  /** The moves of all blocks added up. */
  ghost function MovesOver(genesis: Columns, blocks: seq<Block>): Flows {
    if blocks == [] then Moves(0, 0, 0, 0)
    else
      var earlier := blocks[..|blocks| - 1];
      var m, n := MovesOver(genesis, earlier), MovesOf(Chain.After(genesis, earlier), blocks[|blocks| - 1]);
      Moves(m.burned + n.burned, m.minted + n.minted, m.gap + n.gap, m.bound + n.bound)
  }

  lemma PendingStaysSound(genesis: Columns, blocks: seq<Block>)
    requires Unbondings.SoundPending(genesis.unbondings, genesis.nextUnbondId)
    ensures Unbondings.SoundPending(Chain.After(genesis, blocks).unbondings, Chain.After(genesis, blocks).nextUnbondId)
  {
    hide Unbondings.SoundPending, Unbondings.SoundLog, Chain.After;
    Unbondings.ChainExplains(genesis, blocks);
  }

  /** Over every chain, disputes, mints and stale reads included: balances, stakes,
      unbondings, locked escrows, open and vetoed deposits, plus what was burned, make what
      there was, plus what was minted, plus the gaps. */
  lemma {:induction false} ChainBalances(genesis: Columns, blocks: seq<Block>)
    requires Ready(genesis) && Unbondings.SoundPending(genesis.unbondings, genesis.nextUnbondId)
    requires Holdings(genesis) + MovesOver(genesis, blocks).bound <= U128_MAX
    ensures Balances(genesis, Chain.After(genesis, blocks), MovesOver(genesis, blocks))
      && Ready(Chain.After(genesis, blocks))
  {
    hide Next, MovesOf, Holdings, Ready, Unbondings.SoundPending;
    if blocks != [] {
      var earlier := blocks[..|blocks| - 1];
      ChainBalances(genesis, earlier);
      PendingStaysSound(genesis, earlier);
      NextBalances(Chain.After(genesis, earlier), blocks[|blocks| - 1]);
    }
  }

  /** A block whose landed transactions name each job and propose at most once, and that
      accuses each node at most once and not after touching its stakes. */
  ghost predicate OrderlyBlock(base: Columns, block: Block) {
    Accepts(base, block) ==>
      OncePerKey(Landing(base, block)) && SlashesApart(base, RunAll(base, block.txs).live, block.txs)
  }

  ghost predicate Orderly(genesis: Columns, blocks: seq<Block>) {
    blocks != [] ==>
      var earlier := blocks[..|blocks| - 1];
      Orderly(genesis, earlier) && OrderlyBlock(Chain.After(genesis, earlier), blocks[|blocks| - 1])
  }

  lemma OrderlyHasNoGap(base: Columns, block: Block)
    requires Lifecycle.FreshIds(base) && OrderlyBlock(base, block)
    ensures MovesOf(base, block).gap == 0
  {
    hide RunAll, SlashAll, BurnedIn, MintedIn, GapsIn, ExcessIn, SlashGaps, SlashExcess, SlashBurnedIn, OncePerKey,
      SlashesApart;
    hide EpochBook, EpochBound, Rotated, UntouchedStay, Lifecycle.FreshIds;
    if Accepts(base, block) {
      OncePerKeyHasNoGap(base, block.txs);
      SlashesApartHaveNoGap(base, RunAll(base, block.txs).live, block.txs);
    }
  }

  lemma {:induction false} OrderlyChainHasNoGap(genesis: Columns, blocks: seq<Block>)
    requires Lifecycle.FreshIds(genesis) && Orderly(genesis, blocks)
    ensures MovesOver(genesis, blocks).gap == 0
  {
    hide Next, MovesOf, OrderlyBlock, Lifecycle.FreshIds;
    if blocks != [] {
      var earlier := blocks[..|blocks| - 1];
      OrderlyChainHasNoGap(genesis, earlier);
      Lifecycle.ChainOnward(genesis, earlier, 0);
      OrderlyHasNoGap(Chain.After(genesis, earlier), blocks[|blocks| - 1]);
    }
  }

  /** Over every orderly chain nothing appears or vanishes but by a mint or a burn. */
  lemma ChainConserves(genesis: Columns, blocks: seq<Block>)
    requires Ready(genesis) && Unbondings.SoundPending(genesis.unbondings, genesis.nextUnbondId)
    requires Orderly(genesis, blocks) && Holdings(genesis) + MovesOver(genesis, blocks).bound <= U128_MAX
    ensures var m := MovesOver(genesis, blocks);
      Holdings(Chain.After(genesis, blocks)) + m.burned == Holdings(genesis) + m.minted
  {
    hide Holdings, MovesOver, Orderly, Unbondings.SoundPending, Chain.After, Lifecycle.FreshIds;
    ChainBalances(genesis, blocks);
    OrderlyChainHasNoGap(genesis, blocks);
  }
}
