/**
 What the slashes of a block take, position by position, and what they pay, account by
 account. Amounts and fractions are written as numbers.
 */
module SlashEffects {
  import opened Numeric
  import opened MapSums
  import opened Types
  import opened LedgerSpec
  import opened Slashing
  import opened Blocks
  import Effects

  // ----- The penalties -----

  /** Five offences take everything, two take 5%, two take 10%, one takes 2% and one 1%. */
  lemma PenaltiesAre(amount: nat, o: Offense)
    ensures o in {WrongModelHash, DoubleClaimReceipt, VerifierComputeCollusion, DataLeak, FakeTeeAttestation} ==>
      Cut(amount, o) == amount
    ensures o in {FailedDeterministicVerification, RouterPreferentialRouting} ==> Cut(amount, o) == amount * 5 / 100
    ensures o in {CensoringMints, FalseDispute} ==> Cut(amount, o) == amount * 10 / 100
    ensures o.RepeatedTimeouts? ==> Cut(amount, o) == amount * 2 / 100
    ensures o.ExtendedDowntime? ==> Cut(amount, o) == amount / 100
  {
  }

  /** Five percent of every committed compute stake of the node. */
  function StakeParts(base: Columns, node: NodeId): map<StakeKey, nat> {
    map k | k in base.stakes && k.node == node && k.role == Compute :: base.stakes[k].amount * 5 / 100
  }

  /** Five percent of every committed compute unbonding of the node that is not complete. */
  function PendingParts(base: Columns, node: NodeId): map<UnbondKey, nat> {
    map k | k in base.unbondings && k.node == node && base.unbondings[k].role == Compute
        && base.height < base.unbondings[k].completesAt ::
      base.unbondings[k].amount * 5 / 100
  }

  ghost function Taken(base: Columns, node: NodeId): u128 {
    Min(Sum(StakeParts(base, node), Whole) + Sum(PendingParts(base, node), Whole), U128_MAX)
  }

  function Positive<K>(m: map<K, nat>): map<K, nat> {
    map k | k in m && m[k] > 0 :: m[k]
  }

  lemma {:induction false} PositiveSum<K(!new)>(m: map<K, nat>)
    ensures Sum(Positive(m), Whole) == Sum(m, Whole)
    decreases |m|
  {
    if m != map[] {
      var k :| k in m;
      var rest := m - {k};
      PositiveSum(rest);
      assert m == rest[k := m[k]];
      SumUpdate(rest, Whole, k, m[k]);
      if m[k] > 0 {
        assert Positive(m) == Positive(rest)[k := m[k]];
        SumUpdate(Positive(rest), Whole, k, m[k]);
      } else {
        assert Positive(m) == Positive(rest);
      }
    }
  }

  lemma StakeCutsArePositive(base: Columns, claim: DisputeClaim)
    ensures StakeCuts(base, ChargeOf(claim)) == Positive(StakeParts(base, claim.computeNode))
  {
  }

  lemma PendingCutsArePositive(base: Columns, claim: DisputeClaim)
    ensures UnbondingCuts(base, ChargeOf(claim)) == Positive(PendingParts(base, claim.computeNode))
  {
  }

  lemma TakenIs(base: Columns, claim: DisputeClaim)
    ensures Min(CutSum(base, ChargeOf(claim)), U128_MAX) == Taken(base, claim.computeNode)
  {
    StakeCutsArePositive(base, claim);
    PendingCutsArePositive(base, claim);
    PositiveSum(StakeParts(base, claim.computeNode));
    PositiveSum(PendingParts(base, claim.computeNode));
    hide StakeCuts, UnbondingCuts, StakeParts, PendingParts;
  }

  // ----- One dispute -----

  /** The stakes after a slash of `node`: each committed compute stake of it that loses at least a unit is
      written back less its five percent; the others are as the block left them. */
  ghost predicate StakesCut(base: Columns, live: Stakes, after: Stakes, node: NodeId) {
    forall k ::
      if k in base.stakes && k.node == node && k.role == Compute && base.stakes[k].amount * 5 / 100 > 0 then
        k in after && after[k] == StakeEntry(base.stakes[k].amount - base.stakes[k].amount * 5 / 100,
          base.stakes[k].bondedAt)
      else (k in after <==> k in live) && (k in live ==> after[k] == live[k])
  }

  ghost predicate PendingCut(base: Columns, live: Pending, after: Pending, node: NodeId) {
    forall k ::
      if k in base.unbondings && k.node == node && base.unbondings[k].role == Compute
        && base.height < base.unbondings[k].completesAt && base.unbondings[k].amount * 5 / 100 > 0 then
        k in after && after[k] ==
          base.unbondings[k].(amount := base.unbondings[k].amount - base.unbondings[k].amount * 5 / 100)
      else (k in after <==> k in live) && (k in live ==> after[k] == live[k])
  }

  lemma LoweredIsCut(base: Columns, live: Stakes, claim: DisputeClaim)
    ensures StakesCut(base, live, Lowered(base.stakes, live, StakeCuts(base, ChargeOf(claim))), claim.computeNode)
  {
    StakeCutsArePositive(base, claim);
    hide StakeCuts;
  }

  lemma TrimmedIsCut(base: Columns, live: Pending, claim: DisputeClaim)
    ensures PendingCut(base, live, Trimmed(base.unbondings, live, UnbondingCuts(base, ChargeOf(claim))),
      claim.computeNode)
  {
    PendingCutsArePositive(base, claim);
    hide UnbondingCuts;
  }

  /** What one accusation pays to the address `a`: the reporter 5% of what is taken, the treasury the rest
      but the burned 90%. */
  ghost function RewardPart(base: Columns, claim: DisputeClaim, a: Address): int {
    var total := Taken(base, claim.computeNode);
    (if a == claim.reporter then total * 5 / 100 else 0)
    + (if a == OfTreasuryTag then total - total * 90 / 100 - total * 5 / 100 else 0)
  }

  /** A slash overflows exactly when a committed amount cannot be multiplied by 5, or the total by 90. */
  lemma SlashOverflowsExactly(base: Columns, claim: DisputeClaim)
    ensures SlashOverflows(base, ChargeOf(claim)) <==>
      || (exists k :: k in base.stakes && k.node == claim.computeNode && k.role == Compute
            && base.stakes[k].amount * 5 > U128_MAX)
      || (exists k :: k in base.unbondings && k.node == claim.computeNode && base.unbondings[k].role == Compute
            && base.height < base.unbondings[k].completesAt && base.unbondings[k].amount * 5 > U128_MAX)
      || Taken(base, claim.computeNode) * 90 > U128_MAX
  {
    TakenIs(base, claim);
    hide CutSum, Taken;
  }

  lemma SlashPays(base: Columns, accounts: Accounts, claim: DisputeClaim, a: Address)
    ensures RewardPart(base, claim, a) >= 0
    ensures AccountAt(SlashPaid(accounts, SlashReportOf(base, ChargeOf(claim)), claim.reporter, OfTreasuryTag), a) ==
      Effects.Gains(AccountAt(accounts, a), RewardPart(base, claim, a))
  {
    TakenIs(base, claim);
    hide CutSum, Taken, StakeCuts, UnbondingCuts, CreditIfPositive, AccountAt, Effects.Gains;
    var r := SlashReportOf(base, ChargeOf(claim));
    var one := CreditIfPositive(accounts, claim.reporter, r.toReporter);
    Effects.PaidReads(accounts, claim.reporter, r.toReporter, a);
    Effects.PaidReads(one, OfTreasuryTag, r.toTreasury, a);
    var x: nat := if claim.reporter == a then r.toReporter else 0;
    var y: nat := if OfTreasuryTag == a then r.toTreasury else 0;
    Effects.GainsTwice(AccountAt(accounts, a), x, y);
  }

  /** One dispute with differing hashes, landed or not: five percent of each committed compute stake and
      immature compute unbonding of the accused node; a twentieth of that to the reporter, nine tenths
      burned, the rest to the treasury; nothing else changes. */
  lemma SlashTakes(base: Columns, live: Columns, tx: Transaction)
    requires Accuses(tx) && SlashFor(base, live, tx).Some?
    ensures var after, node := SlashFor(base, live, tx).value, tx.claim.computeNode;
      && StakesCut(base, live.stakes, after.stakes, node)
      && PendingCut(base, live.unbondings, after.unbondings, node)
      && (forall a :: RewardPart(base, tx.claim, a) >= 0
            && AccountAt(after.accounts, a) ==
               Effects.Gains(AccountAt(live.accounts, a), RewardPart(base, tx.claim, a)))
      && after == live.(accounts := after.accounts, stakes := after.stakes, unbondings := after.unbondings)
  {
    hide StakesCut, PendingCut, RewardPart, AccountAt, SlashPaid, SlashReportOf, SlashOverflows, Lowered, Trimmed;
    hide StakeCuts, UnbondingCuts;
    LoweredIsCut(base, live.stakes, tx.claim);
    TrimmedIsCut(base, live.unbondings, tx.claim);
    forall a
      ensures RewardPart(base, tx.claim, a) >= 0
      ensures AccountAt(SlashPaid(live.accounts, SlashReportOf(base, ChargeOf(tx.claim)), tx.claim.reporter,
          OfTreasuryTag), a) ==
        Effects.Gains(AccountAt(live.accounts, a), RewardPart(base, tx.claim, a))
    {
      SlashPays(base, live.accounts, tx.claim, a);
    }
  }

  // ----- All disputes of a block -----

  predicate Accused(txs: seq<SignedTx>, node: NodeId) {
    exists i :: 0 <= i < |txs| && txs[i].tx.Dispute? && txs[i].tx.claim.claimedHash != txs[i].tx.claim.reexecHash
      && txs[i].tx.claim.computeNode == node
  }

  lemma AccusedLast(txs: seq<SignedTx>, node: NodeId)
    requires txs != []
    ensures var last := txs[|txs| - 1].tx;
      Accused(txs, node) <==> (Accused(txs[..|txs| - 1], node) || (Accuses(last) && last.claim.computeNode == node))
  {
    var earlier := txs[..|txs| - 1];
    if Accused(earlier, node) {
      var i :| 0 <= i < |earlier| && earlier[i].tx.Dispute?
        && earlier[i].tx.claim.claimedHash != earlier[i].tx.claim.reexecHash
        && earlier[i].tx.claim.computeNode == node;
      assert txs[i] == earlier[i];
    }
    assert forall i :: 0 <= i < |earlier| ==> txs[i] == earlier[i];
  }

  lemma NoAccusation(base: Columns, live: Columns, tx: Transaction)
    requires !Accuses(tx)
    ensures SlashFor(base, live, tx) == Some(live)
  {
  }

  /** However often its node is accused, a compute stake loses five percent of what was committed. */
  lemma {:induction false} AccusedStakesCut(base: Columns, live: Columns, txs: seq<SignedTx>, k: StakeKey)
    requires SlashAll(base, live, txs).Some?
    ensures var after := SlashAll(base, live, txs).value.stakes;
      if k in base.stakes && k.role == Compute && Accused(txs, k.node) && base.stakes[k].amount * 5 / 100 > 0 then
        k in after && after[k] == StakeEntry(base.stakes[k].amount - base.stakes[k].amount * 5 / 100,
          base.stakes[k].bondedAt)
      else (k in after <==> k in live.stakes) && (k in live.stakes ==> after[k] == live.stakes[k])
  {
    if txs != [] {
      hide SlashFor, Accused;
      var earlier, tx := txs[..|txs| - 1], txs[|txs| - 1].tx;
      AccusedStakesCut(base, live, earlier, k);
      AccusedLast(txs, k.node);
      var before := SlashAll(base, live, earlier).value;
      if Accuses(tx) {
        SlashTakes(base, before, tx);
      } else {
        NoAccusation(base, before, tx);
      }
    }
  }

  /** The same of an unbonding, where it is not complete. */
  lemma {:induction false} AccusedPendingCut(base: Columns, live: Columns, txs: seq<SignedTx>, k: UnbondKey)
    requires SlashAll(base, live, txs).Some?
    ensures var after := SlashAll(base, live, txs).value.unbondings;
      if k in base.unbondings && base.unbondings[k].role == Compute && Accused(txs, k.node)
        && base.height < base.unbondings[k].completesAt && base.unbondings[k].amount * 5 / 100 > 0 then
        k in after && after[k] ==
          base.unbondings[k].(amount := base.unbondings[k].amount - base.unbondings[k].amount * 5 / 100)
      else (k in after <==> k in live.unbondings) && (k in live.unbondings ==> after[k] == live.unbondings[k])
  {
    if txs != [] {
      hide SlashFor, Accused;
      var earlier, tx := txs[..|txs| - 1], txs[|txs| - 1].tx;
      AccusedPendingCut(base, live, earlier, k);
      AccusedLast(txs, k.node);
      var before := SlashAll(base, live, earlier).value;
      if Accuses(tx) {
        SlashTakes(base, before, tx);
      } else {
        NoAccusation(base, before, tx);
      }
    }
  }

  /** What all accusations of a list pay to one address; a repeated one pays again. */
  ghost function RewardParts(base: Columns, txs: seq<SignedTx>, a: Address): int {
    if txs == [] then 0
    else
      var tx := txs[|txs| - 1].tx;
      RewardParts(base, txs[..|txs| - 1], a) + if Accuses(tx) then RewardPart(base, tx.claim, a) else 0
  }

  lemma {:induction false} SlashesPay(base: Columns, live: Columns, txs: seq<SignedTx>, a: Address)
    requires SlashAll(base, live, txs).Some?
    ensures RewardParts(base, txs, a) >= 0
    ensures AccountAt(SlashAll(base, live, txs).value.accounts, a) ==
      Effects.Gains(AccountAt(live.accounts, a), RewardParts(base, txs, a))
  {
    hide SlashFor, AccountAt, RewardPart;
    if txs != [] {
      var earlier, tx := txs[..|txs| - 1], txs[|txs| - 1].tx;
      SlashesPay(base, live, earlier, a);
      var before := SlashAll(base, live, earlier).value;
      if Accuses(tx) {
        SlashTakes(base, before, tx);
        Effects.GainsTwice(AccountAt(live.accounts, a), RewardParts(base, earlier, a), RewardPart(base, tx.claim, a));
      } else {
        NoAccusation(base, before, tx);
      }
    }
  }
}
