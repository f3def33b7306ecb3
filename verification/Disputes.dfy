/**
 Disputes and the slashes they cause. A dispute lands when its hashes differ and its job is
 marked; commit slashes for every listed dispute whose hashes differ, landed or not.
 */
module Disputes {
  import opened Numeric
  import opened MapSums
  import opened Types
  import opened LedgerSpec
  import opened Blocks
  import opened Supply
  import NoOverflow
  import Replay
  import Slashing
  import SlashEffects

  // ----- At one place in a list -----

  /** The ledger when the turn of transaction `i` comes. */
  ghost function AtTurn(base: Columns, txs: seq<SignedTx>, i: nat): Columns
    requires i < |txs| && RunAll(base, txs[..i]).Pass?
  {
    RunAll(base, txs[..i]).live
  }

  ghost predicate LandsAt(base: Columns, txs: seq<SignedTx>, i: nat)
    requires i < |txs| && RunAll(base, txs[..i]).Pass?
  {
    Apply(base, AtTurn(base, txs, i), txs[i]).outcome.Applied?
  }

  lemma DisputeLandsExactly(base: Columns, live: Columns, stx: SignedTx)
    requires stx.tx.Dispute?
    ensures var step := Apply(base, live, stx);
      && !step.outcome.Panicked? && step.live == live
      && (step.outcome.Applied? <==> Accuses(stx.tx) && stx.tx.claim.job in live.receipts)
  {
  }

  /** A listed dispute slashes without landing exactly when its hashes differ and its job is not
      marked when its turn comes. */
  lemma SlashesWithoutLandingExactly(base: Columns, txs: seq<SignedTx>, i: nat)
    requires i < |txs| && RunAll(base, txs[..i]).Pass? && txs[i].tx.Dispute?
    ensures Accuses(txs[i].tx) && !LandsAt(base, txs, i) <==>
      && txs[i].tx.claim.claimedHash != txs[i].tx.claim.reexecHash
      && txs[i].tx.claim.job !in AtTurn(base, txs, i).receipts
  {
    hide Apply, RunAll;
    DisputeLandsExactly(base, AtTurn(base, txs, i), txs[i]);
  }

  // ----- Whole lists -----

  function Accusations(txs: seq<SignedTx>): seq<DisputeClaim> {
    if txs == [] then []
    else
      var tx := txs[|txs| - 1].tx;
      Accusations(txs[..|txs| - 1]) + if Accuses(tx) then [tx.claim] else []
  }

  lemma AccusationsSnoc(txs: seq<SignedTx>, stx: SignedTx)
    ensures Accusations(txs + [stx]) == Accusations(txs) + if Accuses(stx.tx) then [stx.tx.claim] else []
  {
    assert (txs + [stx])[..|txs|] == txs;
  }

  /** One slash after another for a list of claims; `None` on overflow. */
  ghost function Punished(base: Columns, live: Columns, claims: seq<DisputeClaim>): Option<Columns> {
    if claims == [] then Some(live)
    else
      var before := Punished(base, live, claims[..|claims| - 1]);
      if before.None? then None
      else
        var claim := claims[|claims| - 1];
        match Slashing.Slashed(base, StakesOf(before.value), ChargeOf(claim), claim.reporter, OfTreasuryTag)
        case None => None
        case Some(book) => Some(WithStakes(before.value, book))
  }

  /** What a block's slashes do depends on its accusations only. */
  lemma {:induction false} SlashesAreAccusations(base: Columns, live: Columns, txs: seq<SignedTx>)
    ensures SlashAll(base, live, txs) == Punished(base, live, Accusations(txs))
  {
    hide Slashing.Slashed, WithStakes;
    if txs != [] {
      var earlier, tx := txs[..|txs| - 1], txs[|txs| - 1].tx;
      SlashesAreAccusations(base, live, earlier);
      if Accuses(tx) {
        var claims := Accusations(earlier) + [tx.claim];
        assert claims[..|claims| - 1] == Accusations(earlier);
      } else {
        assert Accusations(txs) == Accusations(earlier);
      }
    }
  }

  /** Every accusation of the list is about a job marked when its turn comes. */
  ghost predicate AllMarked(base: Columns, txs: seq<SignedTx>)
    requires RunAll(base, txs).Pass?
  {
    forall i :: 0 <= i < |txs| && Accuses(txs[i].tx) ==>
      RunAll(base, txs[..i]).Pass? && txs[i].tx.claim.job in RunAll(base, txs[..i]).live.receipts
  }

  lemma {:induction false} PrefixPasses(base: Columns, txs: seq<SignedTx>, i: nat)
    requires RunAll(base, txs).Pass? && i <= |txs|
    ensures RunAll(base, txs[..i]).Pass?
    decreases |txs|
  {
    if i < |txs| {
      PrefixPasses(base, txs[..|txs| - 1], i);
      assert txs[..|txs| - 1][..i] == txs[..i];
    } else {
      assert txs[..i] == txs;
    }
  }

  lemma MarkedSplits(base: Columns, txs: seq<SignedTx>)
    requires txs != [] && RunAll(base, txs).Pass? && RunAll(base, txs[..|txs| - 1]).Pass?
    ensures var earlier, tx := txs[..|txs| - 1], txs[|txs| - 1].tx;
      AllMarked(base, txs) <==>
        && AllMarked(base, earlier)
        && (Accuses(tx) ==> tx.claim.job in RunAll(base, earlier).live.receipts)
  {
    hide RunAll, Accuses;
    var earlier := txs[..|txs| - 1];
    assert forall i :: 0 <= i < |earlier| ==> earlier[..i] == txs[..i] && earlier[i] == txs[i];
  }

  lemma StepAccuses(base: Columns, pass: Pass, stx: SignedTx)
    requires pass.Pass? && PassAfter(pass, base, stx).Pass?
    ensures var claim := if Accuses(stx.tx) then [stx.tx.claim] else [];
      Accusations(PassAfter(pass, base, stx).kept) == Accusations(pass.kept) +
        if Accuses(stx.tx) && stx.tx.claim.job !in pass.live.receipts then [] else claim
  {
    hide Apply, Accusations;
    AccusationsSnoc(pass.kept, stx);
    if stx.tx.Dispute? {
      DisputeLandsExactly(base, pass.live, stx);
    }
  }

  /** For every list: the disputes that landed are fewer than those that slash unless every
      accusation is about a job marked at its turn; then they are the same, in order. */
  lemma {:induction false} OnlyLandedSlashExactly(base: Columns, txs: seq<SignedTx>)
    requires RunAll(base, txs).Pass?
    ensures var landed := Accusations(RunAll(base, txs).kept);
      && |landed| <= |Accusations(txs)|
      && (AllMarked(base, txs) ==> landed == Accusations(txs))
      && (!AllMarked(base, txs) ==> |landed| < |Accusations(txs)|)
  {
    if txs != [] {
      hide Accuses, PassAfter, AllMarked;
      var earlier, stx := txs[..|txs| - 1], txs[|txs| - 1];
      PrefixPasses(base, txs, |txs| - 1);
      OnlyLandedSlashExactly(base, earlier);
      MarkedSplits(base, txs);
      StepAccuses(base, RunAll(base, earlier), stx);
    }
  }

  /** Where every accusation is about a marked job, commit slashes as if for the landed disputes. */
  lemma MarkedListsSlashLanded(base: Columns, txs: seq<SignedTx>)
    requires RunAll(base, txs).Pass? && AllMarked(base, txs)
    ensures var pass := RunAll(base, txs); SlashAll(base, pass.live, txs) == SlashAll(base, pass.live, pass.kept)
  {
    hide RunAll, SlashAll, Punished, AllMarked;
    var pass := RunAll(base, txs);
    OnlyLandedSlashExactly(base, txs);
    SlashesAreAccusations(base, pass.live, txs);
    SlashesAreAccusations(base, pass.live, pass.kept);
  }

  // ----- A witness -----

  /** A block that lists nothing but a dispute over a job nobody anchored keeps no transaction and takes
      five percent of each stake of the node it accuses. */
  lemma RejectedDisputeSlashes(base: Columns, stx: SignedTx, k: StakeKey)
    requires Accuses(stx.tx) && stx.tx.claim.job !in base.receipts && Total(base) * 100 <= U128_MAX
    requires k in base.stakes && k.node == stx.tx.claim.computeNode && k.role == Compute
    requires base.stakes[k].amount * 5 / 100 > 0
    ensures RunAll(base, [stx]) == Pass(base, 0, [])
    ensures var r, lost := SlashAll(base, base, [stx]), base.stakes[k].amount * 5 / 100;
      && r.Some? && k in r.value.stakes
      && r.value.stakes[k] == base.stakes[k].(amount := base.stakes[k].amount - lost)
  {
    DisputeLandsExactly(base, base, stx);
    assert RunAll(base, []) == Pass(base, 0, []);
    assert SlashAll(base, base, []) == Some(base);
    hide Apply, SlashFor, Total;
    RunAllSnoc(base, [], stx);
    assert [] + [stx] == [stx] && [stx][..0] == [];
    NoOverflow.SlashesNeverOverflow(base, base, [stx]);
    assert [stx][0].tx.claim.computeNode == k.node;
    SlashEffects.AccusedStakesCut(base, base, [stx], k);
  }
}
