/**
 The registries of confidential compute nodes and of public gateways over whole chains:
 whatever lands and in whatever order, every record passes the shape checks.
 */
module Registries {
  import opened Numeric
  import opened Types
  import opened LedgerSpec
  import opened Blocks
  import Chain
  import Replay
  import Slashing

  predicate SoundTee(c: TeeCapability) {
    && c.scheme == Ed25519
    && 128 <= |c.quote| <= 16_384
    && (c.platform == IntelTdx ==> [4, 0] <= c.quote)
    && (c.platform == AmdSevSnp ==> [2] <= c.quote || [3] <= c.quote)
  }

  predicate SoundGateway(g: GatewayEntry) {
    1 <= |g.url| <= 512 && (g.https ==> [0x68, 0x74, 0x74, 0x70, 0x73, 0x3A, 0x2F, 0x2F] <= g.url)
  }

  predicate SoundRegistry(r: Registry) {
    && (forall n :: n in r.tees ==> SoundTee(r.tees[n]))
    && (forall n :: n in r.gateways ==> SoundGateway(r.gateways[n]))
  }

  /** The shape checks accept exactly the capabilities that may be recorded. */
  lemma TeeLandsExactly(r: Registry, node: NodeId, c: TeeCapability)
    ensures TeeRegistered(r, node, c).outcome.Applied? <==> SoundTee(c)
    ensures SoundRegistry(r) ==> SoundRegistry(TeeRegistered(r, node, c).book)
  {
  }

  lemma GatewayLandsExactly(r: Registry, node: NodeId, operator: Address, url: seq<u8>, https: bool, height: u64)
    ensures GatewayRegistered(r, node, operator, url, https, height).outcome.Applied? <==>
      SoundGateway(GatewayEntry(operator, url, https, height))
    ensures SoundRegistry(r) ==> SoundRegistry(GatewayRegistered(r, node, operator, url, https, height).book)
  {
  }

  lemma MoneyKeepsRegistry(live: Columns)
    ensures forall d :: OnAccounts(live, d).live.registry == live.registry
    ensures forall d :: OnStakes(live, d).live.registry == live.registry
    ensures forall d :: OnEscrows(live, d).live.registry == live.registry
  {
  }

  lemma RecordsKeepRegistry(live: Columns)
    ensures forall d :: OnReceipts(live, d).live.registry == live.registry
    ensures forall d :: OnModels(live, d).live.registry == live.registry
    ensures forall d :: OnGov(live, d).live.registry == live.registry
  {
  }

  lemma OthersKeepRegistry(base: Columns, live: Columns, stx: SignedTx)
    requires !stx.tx.RegisterTee? && !stx.tx.RegisterGateway? && !stx.tx.UnregisterGateway?
    ensures Apply(base, live, stx).live.registry == live.registry
  {
    MoneyKeepsRegistry(live);
    RecordsKeepRegistry(live);
    hide Transferred, ModelRegistered, Proposed, Voted, Settling, Locking, Anchored, Disputed, Minted, InBootstrap,
      StakeOpApplied;
    hide OnAccounts, OnStakes, OnEscrows, OnReceipts, OnModels, OnGov;
  }

  lemma RemovedStaysSound(r: Registry, node: NodeId)
    requires SoundRegistry(r)
    ensures SoundRegistry(GatewayRemoved(r, node).book)
  {
    hide SoundTee, SoundGateway;
  }

  lemma TeeKeepsSound(base: Columns, live: Columns, stx: SignedTx)
    requires stx.tx.RegisterTee? && SoundRegistry(live.registry)
    ensures SoundRegistry(Apply(base, live, stx).live.registry)
  {
    hide TeeRegistered, SoundRegistry;
    TeeLandsExactly(live.registry, stx.tx.node, stx.tx.capability);
  }

  lemma GatewayKeepsSound(base: Columns, live: Columns, stx: SignedTx)
    requires stx.tx.RegisterGateway? && SoundRegistry(live.registry)
    ensures SoundRegistry(Apply(base, live, stx).live.registry)
  {
    hide GatewayRegistered, SoundRegistry;
    GatewayLandsExactly(live.registry, stx.tx.node, stx.tx.operator, stx.tx.url, stx.tx.https, live.height);
  }

  lemma RemovalKeepsSound(base: Columns, live: Columns, stx: SignedTx)
    requires stx.tx.UnregisterGateway? && SoundRegistry(live.registry)
    ensures SoundRegistry(Apply(base, live, stx).live.registry)
  {
    hide GatewayRemoved, SoundRegistry;
    RemovedStaysSound(live.registry, stx.tx.node);
  }

  lemma StepRegistry(base: Columns, live: Columns, stx: SignedTx)
    requires SoundRegistry(live.registry)
    ensures SoundRegistry(Apply(base, live, stx).live.registry)
  {
    hide Apply, SoundRegistry;
    match stx.tx
    case RegisterTee(_, _, _) => TeeKeepsSound(base, live, stx);
    case RegisterGateway(_, _, _, _) => GatewayKeepsSound(base, live, stx);
    case UnregisterGateway(_, _) => RemovalKeepsSound(base, live, stx);
    case _ => OthersKeepRegistry(base, live, stx);
  }

  lemma {:induction false} PassRegistry(base: Columns, txs: seq<SignedTx>)
    requires RunAll(base, txs).Pass? && SoundRegistry(base.registry)
    ensures SoundRegistry(RunAll(base, txs).live.registry)
  {
    if txs != [] {
      hide Apply, SoundRegistry;
      PassRegistry(base, txs[..|txs| - 1]);
      StepRegistry(base, RunAll(base, txs[..|txs| - 1]).live, txs[|txs| - 1]);
    }
  }

  lemma {:induction false} SlashesKeepRegistry(base: Columns, live: Columns, txs: seq<SignedTx>)
    requires SlashAll(base, live, txs).Some?
    ensures SlashAll(base, live, txs).value.registry == live.registry
  {
    hide Slashing.Slashed;
    if txs != [] {
      SlashesKeepRegistry(base, live, txs[..|txs| - 1]);
    }
  }

  lemma AcceptedRegistry(base: Columns, block: Block)
    requires Accepts(base, block) && SoundRegistry(base.registry)
    ensures SoundRegistry(Next(base, block).registry)
  {
    hide RunAll, SlashAll, Rotated, SoundRegistry;
    PassRegistry(base, block.txs);
    var live := RunAll(base, block.txs).live;
    SlashesKeepRegistry(base, live, block.txs);
    RotatedKeepsRest(base, SlashAll(base, live, block.txs).value, block.header);
  }

  /** Over every chain all recorded capabilities and gateways are well shaped. */
  lemma {:induction false} ChainRegistry(genesis: Columns, blocks: seq<Block>)
    requires SoundRegistry(genesis.registry)
    ensures SoundRegistry(Chain.After(genesis, blocks).registry)
  {
    if blocks != [] {
      hide Accepts, Replayed, SoundRegistry;
      var base, block := Chain.After(genesis, blocks[..|blocks| - 1]), blocks[|blocks| - 1];
      ChainRegistry(genesis, blocks[..|blocks| - 1]);
      if Accepts(base, block) {
        AcceptedRegistry(base, block);
      }
    }
  }
}
