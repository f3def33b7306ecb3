/**
 The validator set over whole chains: which blocks change it, that what they read for it is
 the committed state, and that nobody ever joins.
 */
module Membership {
  import opened Numeric
  import opened Types
  import opened LedgerSpec
  import opened Blocks
  import opened ValidatorSet
  import Chain
  import Emission
  import Governance
  import KeyOrder
  import Replay
  import Slashing

  // ----- One block -----

  lemma MoneyKeepsValidators(live: Columns)
    ensures forall d :: OnAccounts(live, d).live.validators == live.validators
    ensures forall d :: OnStakes(live, d).live.validators == live.validators
    ensures forall d :: OnEscrows(live, d).live.validators == live.validators
  {
  }

  lemma RecordsKeepValidators(live: Columns)
    ensures forall d :: OnReceipts(live, d).live.validators == live.validators
    ensures forall d :: OnModels(live, d).live.validators == live.validators
    ensures forall d :: OnGov(live, d).live.validators == live.validators
  {
  }

  lemma RegistryKeepsValidators(live: Columns)
    ensures forall d :: OnRegistry(live, d).live.validators == live.validators
  {
  }

  lemma StepKeepsValidators(base: Columns, live: Columns, stx: SignedTx)
    ensures Apply(base, live, stx).live.validators == live.validators
  {
    MoneyKeepsValidators(live);
    RecordsKeepValidators(live);
    RegistryKeepsValidators(live);
    hide Transferred, ModelRegistered, Proposed, Voted, Settling, Locking, Anchored, Disputed, Minted, InBootstrap;
    hide StakeOpApplied, TeeRegistered, GatewayRegistered, GatewayRemoved;
    hide OnAccounts, OnStakes, OnEscrows, OnReceipts, OnModels, OnGov, OnRegistry;
  }

  lemma {:induction false} PassKeepsValidators(base: Columns, txs: seq<SignedTx>)
    requires RunAll(base, txs).Pass?
    ensures RunAll(base, txs).live.validators == base.validators
  {
    if txs != [] {
      hide Apply;
      PassKeepsValidators(base, txs[..|txs| - 1]);
      StepKeepsValidators(base, RunAll(base, txs[..|txs| - 1]).live, txs[|txs| - 1]);
    }
  }

  lemma {:induction false} SlashesKeepValidators(base: Columns, live: Columns, txs: seq<SignedTx>)
    requires SlashAll(base, live, txs).Some?
    ensures SlashAll(base, live, txs).value.validators == live.validators
  {
    hide Slashing.Slashed;
    if txs != [] {
      SlashesKeepValidators(base, live, txs[..|txs| - 1]);
    }
  }

  lemma MintKeepsValidators(live: Columns, validators: Validators, b: Emission.MintBook, g: GovBook)
    ensures Emission.WithMint(WithRotation(live, validators), b).validators == validators
    ensures WithGov(live, g).validators == live.validators
  {
  }

  ghost function SetAfter(base: Columns, current: Validators, header: Header): Validators {
    if IsEpochBoundary(header.height) then RotatedValidators(base, current, header.height) else current
  }

  lemma RotatedSet(base: Columns, live: Columns, header: Header)
    requires Rotated(base, live, header).Some?
    ensures Rotated(base, live, header).value.validators == SetAfter(base, live.validators, header)
  {
    hide Governance.Advance, Emission.Mint, RotatedValidators, WithGov, GovOf, Emission.WithMint, WithRotation;
    if IsEpochBoundary(header.height) {
      var validators := RotatedValidators(base, live.validators, header.height);
      var b := Emission.Mint(base, live.accounts, live.pendingRewards, header.height).value;
      var c := AfterMint(base, live, header.height).value;
      MintKeepsValidators(live, validators, b, GovOf(live));
      MintKeepsValidators(c, validators, b,
        Governance.Advance(base, GovOf(c), KeyOrder.IdsInOrder(base.proposals.Keys), header.timestamp).value);
    }
  }

  lemma SealKeepsValidators(c: Columns, header: Header, gas: u64)
    ensures Sealed(c, header, gas).validators == c.validators
  {
  }

  /** The set after an accepted block is a function of what was committed before it and of its height. */
  lemma AcceptedSet(base: Columns, block: Block)
    requires Accepts(base, block)
    ensures Next(base, block).validators == SetAfter(base, base.validators, block.header)
  {
    hide RunAll, SlashAll, Rotated, Sealed, SetAfter;
    var pass := RunAll(base, block.txs);
    PassKeepsValidators(base, block.txs);
    SlashesKeepValidators(base, pass.live, block.txs);
    var slashed := SlashAll(base, pass.live, block.txs).value;
    RotatedSet(base, slashed, block.header);
    SealKeepsValidators(Rotated(base, slashed, block.header).value, block.header, pass.gas);
  }

  /** What a boundary block stakes or slashes counts for nothing in the set it elects: two blocks of one
      height, whatever their transactions, elect the same. */
  lemma ElectionIgnoresBlock(base: Columns, a: Block, b: Block)
    requires Accepts(base, a) && Accepts(base, b) && a.header.height == b.header.height
    ensures Next(base, a).validators == Next(base, b).validators
  {
    hide Accepts, Next, RotatedValidators;
    AcceptedSet(base, a);
    AcceptedSet(base, b);
  }

  // ----- Chains -----

  lemma RotationMembers(base: Columns, height: u64)
    ensures RotatedValidators(base, base.validators, height).Keys <= base.validators.Keys
    ensures height < BOOTSTRAP_MAX_BLOCKS ==>
      RotatedValidators(base, base.validators, height).Keys == base.validators.Keys
  {
    hide Candidates, TotalsOf, Refreshed;
  }

  lemma NextMembers(base: Columns, block: Block)
    ensures Next(base, block).validators.Keys <= base.validators.Keys
    ensures block.header.height < BOOTSTRAP_MAX_BLOCKS ==>
      Next(base, block).validators.Keys == base.validators.Keys
  {
    if Accepts(base, block) {
      hide Accepts, Next, RotatedValidators;
      AcceptedSet(base, block);
      RotationMembers(base, block.header.height);
    }
  }

  /** Over every chain, whoever stakes however much: nobody becomes a validator who was none. */
  lemma {:induction false} NobodyJoins(genesis: Columns, blocks: seq<Block>)
    ensures Chain.After(genesis, blocks).validators.Keys <= genesis.validators.Keys
  {
    if blocks != [] {
      hide Next;
      NobodyJoins(genesis, blocks[..|blocks| - 1]);
      NextMembers(Chain.After(genesis, blocks[..|blocks| - 1]), blocks[|blocks| - 1]);
    }
  }

  /** And nobody leaves while all blocks are within the bootstrap window. */
  lemma {:induction false} NobodyLeavesEarly(genesis: Columns, blocks: seq<Block>)
    requires forall block :: block in blocks ==> block.header.height < BOOTSTRAP_MAX_BLOCKS
    ensures Chain.After(genesis, blocks).validators.Keys == genesis.validators.Keys
  {
    if blocks != [] {
      hide Next;
      assert blocks[|blocks| - 1] in blocks;
      NobodyLeavesEarly(genesis, blocks[..|blocks| - 1]);
      NextMembers(Chain.After(genesis, blocks[..|blocks| - 1]), blocks[|blocks| - 1]);
    }
  }
}
