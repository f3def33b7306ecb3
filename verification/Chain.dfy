/**
 Whole chains: runs of decided blocks, accepted or refused, from any committed state.
 */
module Chain {
  import opened Numeric
  import opened Types
  import opened LedgerSpec
  import opened KeyOrder
  import opened Store
  import opened Blocks
  import opened Nonces
  import Governance
  import Slashing
  import ValidatorSet
  import Delegators
  import Emission

  /** The committed state after the decided blocks. */
  ghost function After(genesis: Columns, blocks: seq<Block>): Columns {
    if blocks == [] then genesis
    else Next(After(genesis, blocks[..|blocks| - 1]), blocks[|blocks| - 1])
  }

  /** Every transaction that took effect, in order. */
  ghost function Landed(genesis: Columns, blocks: seq<Block>): seq<SignedTx> {
    if blocks == [] then []
    else
      var earlier := blocks[..|blocks| - 1];
      Landed(genesis, earlier) + Landing(After(genesis, earlier), blocks[|blocks| - 1])
  }

  // ----- Nonces -----

  lemma AdvanceOneHarmless(base: Columns, book: GovBook, id: u64, now: u64, a: Address)
    requires id in base.proposals && Governance.AdvanceOne(base, book, id, now).Some?
    ensures Harmless(book.accounts, Governance.AdvanceOne(base, book, id, now).value.accounts, a)
  {
    hide Credit, CreditIfPositive, Harmless;
    Unchanged(book.accounts, a);
    var p := base.proposals[id].proposal;
    CreditHarmless(book.accounts, p.proposer, p.deposit, a);
  }

  lemma HarmlessTwice(x: Accounts, y: Accounts, z: Accounts, a: Address)
    requires Harmless(x, y, a) && Harmless(y, z, a)
    ensures Harmless(x, z, a)
  {
  }

  lemma {:induction false} AdvanceHarmless(base: Columns, book: GovBook, ids: seq<u64>, now: u64, a: Address)
    requires (forall id :: id in ids ==> id in base.proposals) && Governance.Advance(base, book, ids, now).Some?
    ensures Harmless(book.accounts, Governance.Advance(base, book, ids, now).value.accounts, a)
    decreases |ids|
  {
    hide Governance.AdvanceOne, Harmless;
    Unchanged(book.accounts, a);
    if ids != [] {
      var earlier, id := ids[..|ids| - 1], ids[|ids| - 1];
      AdvanceHarmless(base, book, earlier, now, a);
      var before := Governance.Advance(base, book, earlier, now).value;
      AdvanceOneHarmless(base, before, id, now, a);
      HarmlessTwice(book.accounts, before.accounts, Governance.AdvanceOne(base, before, id, now).value.accounts, a);
    }
  }

  lemma SlashForHarmless(base: Columns, live: Columns, tx: Transaction, a: Address)
    requires SlashFor(base, live, tx).Some?
    ensures Harmless(live.accounts, SlashFor(base, live, tx).value.accounts, a)
  {
    hide CreditIfPositive, Harmless, Slashing.SlashOverflows, Slashing.SlashReportOf, Slashing.CutBook;
    Unchanged(live.accounts, a);
    if Accuses(tx) {
      var r := Slashing.SlashReportOf(base, ChargeOf(tx.claim));
      var one := CreditIfPositive(live.accounts, tx.claim.reporter, r.toReporter);
      CreditHarmless(live.accounts, tx.claim.reporter, r.toReporter, a);
      CreditHarmless(one, OfTreasuryTag, r.toTreasury, a);
      HarmlessTwice(live.accounts, one, CreditIfPositive(one, OfTreasuryTag, r.toTreasury), a);
    }
  }

  lemma {:induction false} SlashesHarmless(base: Columns, live: Columns, txs: seq<SignedTx>, a: Address)
    requires SlashAll(base, live, txs).Some?
    ensures Harmless(live.accounts, SlashAll(base, live, txs).value.accounts, a)
  {
    hide SlashFor, Harmless;
    Unchanged(live.accounts, a);
    if txs != [] {
      var before := SlashAll(base, live, txs[..|txs| - 1]).value;
      SlashesHarmless(base, live, txs[..|txs| - 1], a);
      SlashForHarmless(base, before, txs[|txs| - 1].tx, a);
      HarmlessTwice(live.accounts, before.accounts, SlashAll(base, live, txs).value.accounts, a);
    }
  }

  lemma {:induction false} SharesHarmless(accounts: Accounts, ds: seq<Delegators.Delegation>, shares: seq<nat>,
      a: Address)
    requires Delegators.Payable(ds, shares)
    ensures Harmless(accounts, Delegators.CreditedAll(accounts, ds, shares), a)
    decreases |ds|
  {
    hide CreditIfPositive, Harmless;
    Unchanged(accounts, a);
    if ds != [] {
      var n := |ds| - 1;
      Delegators.PayablePrefix(ds, shares, n);
      SharesHarmless(accounts, ds[..n], shares[..n], a);
      var before := Delegators.CreditedAll(accounts, ds[..n], shares[..n]);
      CreditHarmless(before, ds[n].holder, shares[n], a);
      HarmlessTwice(accounts, before, Delegators.CreditedAll(accounts, ds, shares), a);
    }
  }

  lemma DistributedHarmless(base: Columns, accounts: Accounts, compute: Address, total: u128, a: Address)
    requires Delegators.Distributed(base, accounts, compute, total).Some?
    ensures Harmless(accounts, Delegators.Distributed(base, accounts, compute, total).value, a)
  {
    hide Delegators.CreditedAll, Delegators.Sharers, Credit, Harmless, Delegators.SharesOf;
    Unchanged(accounts, a);
    CreditHarmless(accounts, compute, total, a);
    var ds := Delegators.Sharers(base, compute);
    if Delegators.SumOf(Delegators.Amounts(ds)) > 0 {
      Delegators.SharesPayable(total, ds);
      SharesHarmless(accounts, ds, Delegators.SharesOf(total, Delegators.Amounts(ds)), a);
    }
  }

  lemma PaidSharesHarmless(accounts: Accounts, p: PendingReward, actual: u128, a: Address)
    ensures Harmless(accounts, Emission.PaidShares(accounts, p, actual), a)
  {
    hide CreditIfPositive, Harmless;
    SplitAddsUp(actual);
    var s := SplitOf(actual);
    var one := CreditIfPositive(accounts, p.compute, s.compute);
    var two := CreditIfPositive(one, p.verifier, s.verifier);
    CreditHarmless(accounts, p.compute, s.compute, a);
    CreditHarmless(one, p.verifier, s.verifier, a);
    CreditHarmless(two, p.treasury, s.treasury, a);
    HarmlessTwice(accounts, one, two, a);
    HarmlessTwice(accounts, two, CreditIfPositive(two, p.treasury, s.treasury), a);
  }

  lemma MintOneHarmless(base: Columns, b: Emission.MintBook, job: JobId, perToken: u128, budget: u128, a: Address)
    requires job in base.pendingRewards && Emission.MintOne(base, b, job, perToken, budget).Some?
    ensures Harmless(b.accounts, Emission.MintOne(base, b, job, perToken, budget).value.accounts, a)
  {
    hide Harmless, Emission.RewardOf, Emission.PaidShares, Emission.Granted, Delegators.Distributed, SplitOf;
    Unchanged(b.accounts, a);
    var p := base.pendingRewards[job];
    var actual := Emission.Granted(Emission.RewardOf(p, perToken).value, budget, b.minted);
    if actual > 0 {
      SplitAddsUp(actual);
      var paid := Emission.PaidShares(b.accounts, p, actual);
      PaidSharesHarmless(b.accounts, p, actual, a);
      DistributedHarmless(base, paid, p.compute, SplitOf(actual).delegators, a);
      HarmlessTwice(b.accounts, paid, Emission.MintOne(base, b, job, perToken, budget).value.accounts, a);
    }
  }

  lemma {:induction false} MintManyHarmless(base: Columns, b: Emission.MintBook, jobs: seq<JobId>, perToken: u128,
      budget: u128, a: Address)
    requires Emission.Queued(base, jobs) && Emission.MintMany(base, b, jobs, perToken, budget).Some?
    ensures Harmless(b.accounts, Emission.MintMany(base, b, jobs, perToken, budget).value.accounts, a)
    decreases |jobs|
  {
    hide Emission.MintOne, Harmless;
    Unchanged(b.accounts, a);
    if jobs != [] {
      var earlier := jobs[..|jobs| - 1];
      MintManyHarmless(base, b, earlier, perToken, budget, a);
      var before := Emission.MintMany(base, b, earlier, perToken, budget).value;
      MintOneHarmless(base, before, jobs[|jobs| - 1], perToken, budget, a);
      HarmlessTwice(b.accounts, before.accounts, Emission.MintMany(base, b, jobs, perToken, budget).value.accounts, a);
    }
  }

  lemma MintHarmless(base: Columns, accounts: Accounts, pending: map<JobId, PendingReward>, height: u64, a: Address)
    requires Emission.Mint(base, accounts, pending, height).Some?
    ensures Harmless(accounts, Emission.Mint(base, accounts, pending, height).value.accounts, a)
  {
    hide Harmless, Emission.MintMany, Emission.EpochBudget, Emission.PerToken, Emission.TokensOf, Emission.Ending;
    Unchanged(accounts, a);
    var jobs := Emission.Ending(base, height);
    if jobs != [] {
      var budget := Emission.EpochBudget(height).value;
      MintManyHarmless(base, Emission.MintBook(accounts, pending, 0, 0), jobs,
        Emission.PerToken(budget, Emission.TokensOf(base, jobs)), budget, a);
    }
  }

  lemma RotatedHarmless(base: Columns, live: Columns, header: Header, a: Address)
    requires Rotated(base, live, header).Some?
    ensures Harmless(live.accounts, Rotated(base, live, header).value.accounts, a)
  {
    hide Governance.Advance, Harmless, Emission.Mint, ValidatorSet.RotatedValidators;
    Unchanged(live.accounts, a);
    if IsEpochBoundary(header.height) {
      MintHarmless(base, live.accounts, live.pendingRewards, header.height, a);
      var c := AfterMint(base, live, header.height).value;
      AdvanceHarmless(base, GovOf(c), IdsInOrder(base.proposals.Keys), header.timestamp, a);
      HarmlessTwice(live.accounts, c.accounts, Rotated(base, live, header).value.accounts, a);
    }
  }

  lemma NothingSpent(a: Address, first: nat)
    ensures Consecutive([], a, first) && Spends([], a) == 0
  {
  }

  lemma BlockNonces(base: Columns, block: Block, a: Address)
    ensures NonceOf(Next(base, block).accounts, a) == NonceOf(base.accounts, a) + Spends(Landing(base, block), a)
    ensures Consecutive(Landing(base, block), a, NonceOf(base.accounts, a))
    ensures NoEmptyAccounts(base.accounts) ==> NoEmptyAccounts(Next(base, block).accounts)
  {
    hide RunAll, SlashAll, Rotated, NoEmptyAccounts, Consecutive;
    if Accepts(base, block) {
      var live := RunAll(base, block.txs).live;
      PassNonces(base, block.txs, a);
      SlashesHarmless(base, live, block.txs, a);
      RotatedHarmless(base, SlashAll(base, live, block.txs).value, block.header, a);
    } else {
      NothingSpent(a, NonceOf(base.accounts, a));
    }
  }

  /** Over every chain, through any number of emptied and recreated accounts: a nonce
      counts exactly what the account has spent, and its spends carry consecutive nonces. */
  lemma {:induction false} ChainNonces(genesis: Columns, blocks: seq<Block>, a: Address)
    ensures NonceOf(After(genesis, blocks).accounts, a) ==
      NonceOf(genesis.accounts, a) + Spends(Landed(genesis, blocks), a)
    ensures Consecutive(Landed(genesis, blocks), a, NonceOf(genesis.accounts, a))
    ensures NoEmptyAccounts(genesis.accounts) ==> NoEmptyAccounts(After(genesis, blocks).accounts)
  {
    hide NoEmptyAccounts, Consecutive, NonceOf, Spends, Next, Landing;
    if blocks == [] {
      NothingSpent(a, NonceOf(genesis.accounts, a));
    } else {
      var earlier, block := blocks[..|blocks| - 1], blocks[|blocks| - 1];
      var base := After(genesis, earlier);
      ChainNonces(genesis, earlier, a);
      BlockNonces(base, block, a);
      ConsecutiveConcat(Landed(genesis, earlier), Landing(base, block), a, NonceOf(genesis.accounts, a));
    }
  }

  lemma {:induction false} SpendsGrow(txs: seq<SignedTx>, i: nat, a: Address)
    requires i < |txs| && SpendsFrom(txs[i].tx, a)
    ensures Spends(txs[..i], a) < Spends(txs, a)
  {
    assert txs == txs[..i] + [txs[i]] + txs[i + 1..];
    SpendsConcat(txs[..i] + [txs[i]], txs[i + 1..], a);
    SpendsConcat(txs[..i], [txs[i]], a);
    ConsecutiveOne(txs[i], a, Spent(txs[i].tx).value.1);
  }

  /** Over every chain each (account, nonce) is spent at most once. */
  lemma EachNonceSpentOnce(genesis: Columns, blocks: seq<Block>, i: nat, j: nat)
    requires i < j < |Landed(genesis, blocks)|
    requires Spent(Landed(genesis, blocks)[i].tx).Some?
    ensures Spent(Landed(genesis, blocks)[i].tx) != Spent(Landed(genesis, blocks)[j].tx)
  {
    hide Landed, After, Spends, NoEmptyAccounts;
    var txs := Landed(genesis, blocks);
    var a := Spent(txs[i].tx).value.0;
    ChainNonces(genesis, blocks, a);
    assert txs[..j][..i] == txs[..i];
    SpendsGrow(txs[..j], i, a);
  }
}
