/**
 Votes and model registrations within one block. Both handlers look for a duplicate in the
 committed state only: what an earlier block recorded is refused, but of several under one
 key in the same block every one lands and the last is recorded.
 */
module Duplicates {
  import opened Numeric
  import opened Types
  import opened LedgerSpec
  import opened Store
  import opened Conservation
  import Lifecycle
  import Mempool
  import Replay

  function Last<T>(s: seq<T>, otherwise: Option<T>): Option<T> {
    if s == [] then otherwise else Some(s[|s| - 1])
  }

  // ----- Votes -----

  /** Votes under the key are taken: its proposal was committed in voting, and no vote of its voter was. */
  predicate BallotOpen(base: Columns, key: VoteKey) {
    && key.proposal in base.proposals
    && base.proposals[key.proposal].phase == Voting
    && key !in base.votes
  }

  predicate VotesUnder(tx: Transaction, key: VoteKey) {
    tx.Vote? && VoteKey(tx.proposalId, tx.voter) == key
  }

  function ChoicesUnder(txs: seq<SignedTx>, key: VoteKey): seq<VoteChoice> {
    if txs == [] then []
    else
      var earlier, tx := ChoicesUnder(txs[..|txs| - 1], key), txs[|txs| - 1].tx;
      if VotesUnder(tx, key) then earlier + [tx.choice] else earlier
  }

  lemma ChoicesSnoc(txs: seq<SignedTx>, stx: SignedTx, key: VoteKey)
    ensures ChoicesUnder(txs + [stx], key)
      == ChoicesUnder(txs, key) + if VotesUnder(stx.tx, key) then [stx.tx.choice] else []
  {
    assert (txs + [stx])[..|txs|] == txs;
  }

  lemma VoteLandsExactly(base: Columns, live: Columns, stx: SignedTx, key: VoteKey)
    requires VotesUnder(stx.tx, key)
    ensures Apply(base, live, stx).outcome.Applied? <==> BallotOpen(base, key)
    ensures !Apply(base, live, stx).outcome.Panicked?
  {
  }

  /** A block lands all the votes under an open ballot and none under any other; the last is recorded. */
  lemma {:induction false} VotesOfBlock(base: Columns, txs: seq<SignedTx>, key: VoteKey)
    requires RunAll(base, txs).Pass?
    ensures var pass, cast := RunAll(base, txs), ChoicesUnder(txs, key);
      if BallotOpen(base, key) then
        ChoicesUnder(pass.kept, key) == cast && Lookup(pass.live.votes, key) == Last(cast, None)
      else
        ChoicesUnder(pass.kept, key) == [] && Lookup(pass.live.votes, key) == Lookup(base.votes, key)
  {
    if txs != [] {
      hide Apply, BallotOpen;
      var earlier, stx := txs[..|txs| - 1], txs[|txs| - 1];
      var pass := RunAll(base, earlier);
      VotesOfBlock(base, earlier, key);
      if VotesUnder(stx.tx, key) {
        VoteLandsExactly(base, pass.live, stx, key);
      }
      if Apply(base, pass.live, stx).outcome.Applied? {
        Lifecycle.StepVotes(base, pass.live, stx);
        ChoicesSnoc(pass.kept, stx, key);
      } else {
        Replay.RejectedLeavesLedgerExactly(base, pass.live, stx);
      }
    } else {
      assert BallotOpen(base, key) ==> key !in base.votes;
    }
  }

  /** A voter's second vote on a proposal is refused by a block exactly when the ballot was not open. */
  lemma DuplicateVotesRefusedExactly(base: Columns, txs: seq<SignedTx>, key: VoteKey)
    requires RunAll(base, txs).Pass?
    ensures |ChoicesUnder(RunAll(base, txs).kept, key)| <= 1
      <==> |ChoicesUnder(txs, key)| <= 1 || !BallotOpen(base, key)
  {
    VotesOfBlock(base, txs, key);
  }

  /** A voter can change its mind within a block: both votes land, only the second is recorded. */
  lemma SecondVoteReplacesTheFirst(base: Columns, key: VoteKey, first: VoteChoice, second: VoteChoice)
    requires BallotOpen(base, key)
    ensures var txs := [
        SignedTx(Vote(key.proposal, key.voter, first), PubKey(0), 0),
        SignedTx(Vote(key.proposal, key.voter, second), PubKey(0), 1)];
      var pass := RunAll(base, txs);
      pass.Pass? && pass.kept == txs && Lookup(pass.live.votes, key) == Some(second)
  {
    var one := SignedTx(Vote(key.proposal, key.voter, first), PubKey(0), 0);
    var two := SignedTx(Vote(key.proposal, key.voter, second), PubKey(0), 1);
    VoteLandsExactly(base, base, one, key);
    var live := Apply(base, base, one).live;
    VoteLandsExactly(base, live, two, key);
    Lifecycle.StepVotes(base, live, two);
    hide Apply;
    TwoApplied(base, one, two);
  }

  lemma PickedSlotsDiffer(m: Mempool.Entries, es: seq<Mempool.Entry>, nextSeq: u64, i: nat, j: nat)
    requires (forall e :: e in es ==> Mempool.Pooled(m, e)) && Mempool.RankSorted(es)
    requires Mempool.GoodEntries(m, nextSeq) && Mempool.DistinctSlots(m) && i < j < |es|
    ensures Mempool.LaneOf(es[i].tx.tx) == Mempool.Lane(es[i].sender, es[i].nonce, es[i].fee)
    ensures es[i].sender != es[j].sender || es[i].nonce != es[j].nonce
  {
    assert es[i] in es && es[j] in es && Mempool.Pooled(m, es[i]) && Mempool.Pooled(m, es[j]);
    Mempool.PickedDiffer(m, es, i, j);
  }

  lemma {:induction false} OneVoteAtMost(txs: seq<SignedTx>, key: VoteKey)
    requires forall i, j :: 0 <= i < j < |txs| && VotesUnder(txs[i].tx, key) ==> !VotesUnder(txs[j].tx, key)
    ensures |ChoicesUnder(txs, key)| <= 1
    ensures ChoicesUnder(txs, key) != [] ==> exists i :: 0 <= i < |txs| && VotesUnder(txs[i].tx, key)
  {
    if txs != [] {
      var n := |txs| - 1;
      OneVoteAtMost(txs[..n], key);
      if i :| 0 <= i < n && VotesUnder(txs[..n][i].tx, key) {
        assert VotesUnder(txs[i].tx, key);
      }
    }
  }

  /** Blocks filled from the pool never hold two votes of one voter: its votes share a slot. */
  lemma PoolVotesOnce(m: Mempool.Entries, es: seq<Mempool.Entry>, nextSeq: u64, key: VoteKey)
    requires (forall e :: e in es ==> Mempool.Pooled(m, e)) && Mempool.RankSorted(es)
    requires Mempool.GoodEntries(m, nextSeq) && Mempool.DistinctSlots(m)
    ensures |ChoicesUnder(Mempool.TxsOf(es), key)| <= 1
  {
    var txs := Mempool.TxsOf(es);
    forall i, j | 0 <= i < j < |txs| && VotesUnder(txs[i].tx, key)
      ensures !VotesUnder(txs[j].tx, key)
    {
      PickedSlotsDiffer(m, es, nextSeq, i, j);
      assert es[j] in es && Mempool.Pooled(m, es[j]);
    }
    OneVoteAtMost(txs, key);
  }

  // ----- Models -----

  predicate Registers(tx: Transaction, name: string) {
    tx.RegisterModel? && tx.manifest.modelId == name
  }

  function ManifestsUnder(txs: seq<SignedTx>, name: string): seq<Manifest> {
    if txs == [] then []
    else
      var earlier, tx := ManifestsUnder(txs[..|txs| - 1], name), txs[|txs| - 1].tx;
      if Registers(tx, name) then earlier + [tx.manifest] else earlier
  }

  lemma ManifestsSnoc(txs: seq<SignedTx>, stx: SignedTx, name: string)
    ensures ManifestsUnder(txs + [stx], name)
      == ManifestsUnder(txs, name) + if Registers(stx.tx, name) then [stx.tx.manifest] else []
  {
    assert (txs + [stx])[..|txs|] == txs;
  }

  lemma BooksKeepModels(live: Columns)
    ensures forall d :: OnAccounts(live, d).live.models == live.models
    ensures forall d :: OnStakes(live, d).live.models == live.models
  {
  }

  lemma RecordsKeepModels(live: Columns)
    ensures forall d :: OnEscrows(live, d).live.models == live.models
    ensures forall d :: OnReceipts(live, d).live.models == live.models
    ensures forall d :: OnGov(live, d).live.models == live.models
  {
  }

  lemma RegistryKeepsModels(live: Columns)
    ensures forall d :: OnRegistry(live, d).live.models == live.models
  {
  }

  lemma OthersKeepModels(base: Columns, live: Columns, stx: SignedTx)
    requires !stx.tx.RegisterModel?
    ensures Apply(base, live, stx).live.models == live.models
  {
    BooksKeepModels(live);
    RecordsKeepModels(live);
    RegistryKeepsModels(live);
    hide Transferred, Proposed, Voted, Settling, Locking, Anchored, Disputed, Minted, InBootstrap, StakeOpApplied;
    hide OnAccounts, OnStakes, OnEscrows, OnReceipts, OnGov, OnRegistry, TeeRegistered, GatewayRegistered,
      GatewayRemoved;
  }

  predicate Registrable(base: Columns, name: string) {
    name != "" && name !in base.models
  }

  predicate Affordable(live: Columns, registrar: Address, deposit: u128) {
    MODEL_DEPOSIT <= deposit <= AccountAt(live.accounts, registrar).balance
  }

  lemma RegistrationLandsExactly(base: Columns, live: Columns, stx: SignedTx)
    requires stx.tx.RegisterModel?
    ensures var step, name := Apply(base, live, stx), stx.tx.manifest.modelId;
      && (step.outcome.Applied? <==> Registrable(base, name) && Affordable(live, stx.tx.registrar, stx.tx.deposit))
      && (step.outcome.Applied? ==>
        && step.live.models == live.models[name := stx.tx.manifest]
        && step.live.accounts == Debit(live.accounts, stx.tx.registrar, stx.tx.deposit))
  {
    hide Debit;
  }

  lemma StepModels(base: Columns, live: Columns, stx: SignedTx, name: string)
    ensures var step := Apply(base, live, stx);
      if step.outcome.Applied? && Registers(stx.tx, name) then
        Registrable(base, name) && Lookup(step.live.models, name) == Some(stx.tx.manifest)
      else step.outcome.Panicked? || Lookup(step.live.models, name) == Lookup(live.models, name)
  {
    hide Apply, Registrable, Affordable, Debit;
    if Apply(base, live, stx).outcome.Dropped? {
      Replay.RejectedLeavesLedgerExactly(base, live, stx);
    } else if stx.tx.RegisterModel? {
      RegistrationLandsExactly(base, live, stx);
    } else {
      OthersKeepModels(base, live, stx);
    }
  }

  /** A block registers nothing under a committed name, and under a new one records the last that landed. */
  lemma {:induction false} ModelsOfBlock(base: Columns, txs: seq<SignedTx>, name: string)
    requires RunAll(base, txs).Pass?
    ensures var pass := RunAll(base, txs);
      var landed := ManifestsUnder(pass.kept, name);
      && (landed != [] ==> Registrable(base, name))
      && Lookup(pass.live.models, name) == Last(landed, Lookup(base.models, name))
  {
    if txs != [] {
      hide Apply, Registrable, Lookup;
      var stx := txs[|txs| - 1];
      var pass := RunAll(base, txs[..|txs| - 1]);
      ModelsOfBlock(base, txs[..|txs| - 1], name);
      StepModels(base, pass.live, stx, name);
      ManifestsSnoc(pass.kept, stx, name);
    }
  }

  /** After a registration of its name in the block, another lands exactly when its deposit is paid. */
  lemma SecondRegistrationLandsExactly(base: Columns, txs: seq<SignedTx>, stx: SignedTx)
    requires RunAll(base, txs).Pass? && stx.tx.RegisterModel?
    requires ManifestsUnder(RunAll(base, txs).kept, stx.tx.manifest.modelId) != []
    ensures var live := RunAll(base, txs).live;
      Apply(base, live, stx).outcome.Applied? <==> Affordable(live, stx.tx.registrar, stx.tx.deposit)
  {
    hide Apply, Affordable;
    ModelsOfBlock(base, txs, stx.tx.manifest.modelId);
    RegistrationLandsExactly(base, RunAll(base, txs).live, stx);
  }

  lemma TwoRegister(base: Columns, one: SignedTx, two: SignedTx)
    requires one.tx.RegisterModel? && two.tx.RegisterModel?
    requires one.tx.manifest.modelId == two.tx.manifest.modelId && Registrable(base, one.tx.manifest.modelId)
    requires one.tx.registrar != two.tx.registrar
    requires Affordable(base, one.tx.registrar, one.tx.deposit) && Affordable(base, two.tx.registrar, two.tx.deposit)
    ensures var pass := RunAll(base, [one, two]);
      && pass.Pass? && pass.kept == [one, two]
      && pass.live.models == base.models[one.tx.manifest.modelId := one.tx.manifest]
           [two.tx.manifest.modelId := two.tx.manifest]
      && pass.live.accounts == Debit(Debit(base.accounts, one.tx.registrar, one.tx.deposit), two.tx.registrar,
           two.tx.deposit)
  {
    hide Apply, Registrable;
    RegistrationLandsExactly(base, base, one);
    RegistrationLandsExactly(base, Apply(base, base, one).live, two);
    TwoApplied(base, one, two);
  }

  /** Two registrars can register one name in a block: both pay, and the first manifest is lost. */
  lemma SecondModelReplacesTheFirst(base: Columns, a: Address, b: Address, deposit: u128, first: Manifest,
      second: Manifest)
    requires first.modelId == second.modelId && Registrable(base, first.modelId)
    requires a != b && Affordable(base, a, deposit) && Affordable(base, b, deposit)
    ensures var txs := [
        SignedTx(RegisterModel(first, a, deposit), PubKey(0), 0),
        SignedTx(RegisterModel(second, b, deposit), PubKey(1), 0)];
      var pass := RunAll(base, txs);
      && pass.Pass? && pass.kept == txs
      && Lookup(pass.live.models, second.modelId) == Some(second)
      && AccountAt(pass.live.accounts, a).balance == AccountAt(base.accounts, a).balance - deposit
      && AccountAt(pass.live.accounts, b).balance == AccountAt(base.accounts, b).balance - deposit
  {
    var one := SignedTx(RegisterModel(first, a, deposit), PubKey(0), 0);
    var two := SignedTx(RegisterModel(second, b, deposit), PubKey(1), 0);
    hide RunAll, Registrable;
    TwoRegister(base, one, two);
  }
}
