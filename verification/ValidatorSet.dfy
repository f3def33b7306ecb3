/**
 Validator rotation at epoch boundaries: rank every record by its bonded stake, refresh
 the best of them and, after the bootstrap window, drop those of them without stake.
 */
module ValidatorSet {
  import opened Numeric
  import opened MapSums
  import opened Types
  import opened LedgerSpec
  import opened Store
  import opened Ordering
  import opened KeyOrder
  import opened Governance

  const MAX_ACTIVE_VALIDATORS: nat := 21

  type Validators = map<NodeId, ValidatorInfo>
  type Totals = map<NodeId, u128>

  // ----- Ranking -----

  function ValidatorStakes(stakes: Stakes, node: NodeId): Stakes {
    map k | k in stakes && k.node == node && k.role == Validator :: stakes[k]
  }

  /** Own and delegated stake of every validator, saturating. */
  ghost function TotalOf(base: Columns, node: NodeId): u128 {
    Min(Sum(ValidatorStakes(base.stakes, node), Staked), U128_MAX)
  }

  ghost function TotalsOf(base: Columns): Totals {
    map n | n in base.validators :: TotalOf(base, n)
  }

  /** More stake first, then the smaller operator address, then key order. */
  predicate RanksAbove(validators: Validators, totals: Totals, a: NodeId, b: NodeId) {
    if a !in validators || a !in totals || b !in validators || b !in totals then
      if (a in validators && a in totals) == (b in validators && b in totals) then BelowNode(a, b)
        else a in validators && a in totals
    else
      || totals[a] > totals[b]
      || (totals[a] == totals[b] &&
            (BelowAddress(validators[a].operator, validators[b].operator)
             || (validators[a].operator == validators[b].operator && BelowNode(a, b))))
  }

  function Ranking(validators: Validators, totals: Totals): (NodeId, NodeId) -> bool {
    (a, b) => RanksAbove(validators, totals, a, b)
  }

  lemma RankingIsStrict(validators: Validators, totals: Totals)
    ensures StrictOrder(Ranking(validators, totals))
  {
    IdOrders();
    AddressOrder();
    hide BelowAddress;
    var below := Ranking(validators, totals);
    forall a, b | below(a, b) ensures !below(b, a) { assert RanksAbove(validators, totals, a, b); }
    forall a, b, c | below(a, b) && below(b, c)
      ensures below(a, c)
    {
      assert RanksAbove(validators, totals, a, b) && RanksAbove(validators, totals, b, c);
    }
  }

  function Ranked(validators: Validators, totals: Totals): (r: seq<NodeId>)
    ensures forall n :: n in r <==> n in validators
    ensures Ordering.Ascending(r, Ranking(validators, totals))
  {
    RankingIsStrict(validators, totals);
    InOrder(validators.Keys, Ranking(validators, totals))
  }

  /** The records the rotation looks at. */
  function Candidates(validators: Validators, totals: Totals): (r: seq<NodeId>)
    ensures |r| <= MAX_ACTIVE_VALIDATORS && forall n :: n in r ==> n in validators
  {
    var ranked := Ranked(validators, totals);
    var n := Min(MAX_ACTIVE_VALIDATORS, |ranked|);
    assert forall c :: c in ranked[..n] ==> c in ranked;
    ranked[..n]
  }

  // ----- Rotation -----

  /** One unit per whole ARK, at least one. */
  function VotingPower(total: u128): u64 {
    Min(Max(total / ATOMS_PER_ARK, 1), U64_MAX)
  }

  predicate KeepsSlot(totals: Totals, node: NodeId, bootstrap: bool) {
    bootstrap || (node in totals && totals[node] > 0)
  }

  function Refreshed(info: ValidatorInfo, totals: Totals, node: NodeId): ValidatorInfo {
    info.(votingPower := VotingPower(if node in totals then totals[node] else 0), jailed := false)
  }

  /** The column after the records `done` were looked at. */
  function RotatedOver(committed: Validators, current: Validators, totals: Totals, done: seq<NodeId>,
      bootstrap: bool): Validators {
    map n | n in current.Keys + (set c | c in done)
      && (n in done ==> n in committed && KeepsSlot(totals, n, bootstrap)) ::
      if n in done then Refreshed(committed[n], totals, n) else current[n]
  }

  ghost function RotatedValidators(base: Columns, current: Validators, height: u64): Validators {
    var candidates := Candidates(base.validators, TotalsOf(base));
    RotatedOver(base.validators, current, TotalsOf(base), candidates, InBootstrap(height, |candidates|))
  }

  /** The count gate of the bootstrap check never closes here: at most 21 records count.
      The rotation therefore drops a record exactly when six months have passed, it is one
      of the 21 best and it has no stake; records below the 21 best stay as they are. */
  lemma RotationExactly(base: Columns, height: u64, node: NodeId)
    requires node in base.validators
    ensures var after, candidate :=
      RotatedValidators(base, base.validators, height), node in Candidates(base.validators, TotalsOf(base));
      && (node !in after <==> candidate && height >= BOOTSTRAP_MAX_BLOCKS && TotalsOf(base)[node] == 0)
      && (!candidate ==> after[node] == base.validators[node])
      && (candidate && node in after ==>
            !after[node].jailed && after[node] == Refreshed(base.validators[node], TotalsOf(base), node))
  {
    hide Candidates;
  }

  lemma {:induction false} CountOf(ks: seq<NodeId>, below: (NodeId, NodeId) -> bool)
    requires StrictOrder(below) && Ordering.Ascending(ks, below)
    ensures |set k | k in ks| == |ks|
    decreases |ks|
  {
    if ks != [] {
      var n := |ks| - 1;
      CountOf(ks[..n], below);
      assert (set k | k in ks) == (set k | k in ks[..n]) + {ks[n]};
      assert ks[n] !in ks[..n];
    }
  }

  lemma CandidatePlace(validators: Validators, totals: Totals, i: nat)
    requires i < |Ranked(validators, totals)|
    ensures Ranked(validators, totals)[i] in Candidates(validators, totals) <==> i < MAX_ACTIVE_VALIDATORS
  {
    RankingIsStrict(validators, totals);
    var ranked, below := Ranked(validators, totals), Ranking(validators, totals);
    hide RanksAbove;
    var n := Min(MAX_ACTIVE_VALIDATORS, |ranked|);
    if i < n {
      assert ranked[..n][i] == ranked[i];
    }
  }

  /** In a sorted list, as many keys come before a place as its index says. */
  lemma PlaceOf(ks: seq<NodeId>, below: (NodeId, NodeId) -> bool, i: nat)
    requires StrictOrder(below) && Ordering.Ascending(ks, below) && i < |ks|
    ensures |set n | n in ks && below(n, ks[i])| == i
  {
    assert Ordering.Ascending(ks[..i], below);
    CountOf(ks[..i], below);
    forall n
      ensures n in ks && below(n, ks[i]) <==> n in ks[..i]
    {
      if n in ks {
        var j :| 0 <= j < |ks| && ks[j] == n;
        if j < i {
          assert ks[..i][j] == n;
        } else if i < j {
          assert below(ks[i], ks[j]);
        }
      }
    }
    assert (set n | n in ks && below(n, ks[i])) == set n | n in ks[..i];
  }

  /** A record is looked at exactly when fewer than 21 rank above it. */
  lemma CandidatesAreTheBest(validators: Validators, totals: Totals, node: NodeId)
    requires node in validators
    ensures node in Candidates(validators, totals) <==>
      |set n | n in validators && RanksAbove(validators, totals, n, node)| < MAX_ACTIVE_VALIDATORS
  {
    RankingIsStrict(validators, totals);
    var below, ranked := Ranking(validators, totals), Ranked(validators, totals);
    hide RanksAbove, Candidates, StrictOrder;
    var i :| 0 <= i < |ranked| && ranked[i] == node;
    PlaceOf(ranked, below, i);
    var above := set n | n in validators && RanksAbove(validators, totals, n, node);
    assert above == set n | n in ranked && below(n, node);
    CandidatePlace(validators, totals, i);
  }

  /** No record left aside has more stake than one looked at; with as much, its operator's address is not
      below the other's, nor, where one operator has both, its node. */
  lemma BestLookedAt(validators: Validators, totals: Totals, best: NodeId, other: NodeId)
    requires totals.Keys == validators.Keys && best in Candidates(validators, totals)
    requires other in validators && other !in Candidates(validators, totals)
    ensures
      || totals[other] < totals[best]
      || (totals[other] == totals[best] &&
            (BelowAddress(validators[best].operator, validators[other].operator)
             || (validators[best].operator == validators[other].operator && best.id < other.id)))
  {
    RankingIsStrict(validators, totals);
    var ranked := Ranked(validators, totals);
    var i :| 0 <= i < |ranked| && ranked[i] == best;
    var j :| 0 <= j < |ranked| && ranked[j] == other;
    CandidatePlace(validators, totals, i);
    CandidatePlace(validators, totals, j);
    hide BelowAddress, StrictOrder, Candidates;
    assert Ranking(validators, totals)(ranked[i], ranked[j]);
  }

  /** A record looked at that stays is freed and has a voting power of one per whole ARK staked with its node
      as a validator, at least one; it is the committed record otherwise. */
  lemma RefreshedExactly(base: Columns, height: u64, node: NodeId)
    requires node in base.validators && node in Candidates(base.validators, TotalsOf(base))
    requires node in RotatedValidators(base, base.validators, height)
    ensures var staked := Sum(
        map k | k in base.stakes && k.node == node && k.role == Validator :: base.stakes[k], Staked);
      RotatedValidators(base, base.validators, height)[node] == base.validators[node].(
        votingPower := Min(Max(Min(staked, U128_MAX) / 1_000_000_000, 1), U64_MAX), jailed := false)
  {
    hide Candidates;
    RotationExactly(base, height, node);
    assert ValidatorStakes(base.stakes, node) ==
      map k | k in base.stakes && k.node == node && k.role == Validator :: base.stakes[k];
  }

  // ----- The procedure -----

  method SumValidatorStake(base: Columns, node: NodeId) returns (total: u128)
    ensures total == TotalOf(base, node)
  {
    var mine := ValidatorStakes(base.stakes, node);
    var rest := mine.Keys;
    total := 0;
    ghost var seen: Stakes := map[];
    while rest != {}
      invariant rest <= mine.Keys
      invariant seen == map k | k in mine && k !in rest :: mine[k]
      invariant total == Min(Sum(seen, Staked), U128_MAX)
      decreases |rest|
    {
      var k :| k in rest;
      SumUpdate(seen, Staked, k, mine[k]);
      total := SatAdd128(total, mine[k].amount);
      seen := seen[k := mine[k]];
      rest := rest - {k};
    }
    assert seen == mine;
  }

  method RankCandidates(base: Columns) returns (candidates: seq<NodeId>, totals: Totals)
    ensures totals == TotalsOf(base) && candidates == Candidates(base.validators, totals)
  {
    hide Candidates, TotalOf;
    totals := map[];
    var rest := base.validators.Keys;
    while rest != {}
      invariant rest <= base.validators.Keys
      invariant totals == map n | n in base.validators && n !in rest :: TotalOf(base, n)
      decreases |rest|
    {
      var n :| n in rest;
      var total := SumValidatorStake(base, n);
      totals := totals[n := total];
      rest := rest - {n};
    }
    assert totals == TotalsOf(base);
    candidates := Candidates(base.validators, totals);
  }

  lemma RotateNone(committed: Validators, current: Validators, totals: Totals, bootstrap: bool)
    ensures RotatedOver(committed, current, totals, [], bootstrap) == current
  {
  }

  lemma RotateOne(committed: Validators, current: Validators, totals: Totals, done: seq<NodeId>, node: NodeId,
      bootstrap: bool)
    requires node in committed
    ensures RotatedOver(committed, current, totals, done + [node], bootstrap) ==
      Written(RotatedOver(committed, current, totals, done, bootstrap), node,
        if KeepsSlot(totals, node, bootstrap) then Some(Refreshed(committed[node], totals, node)) else None)
  {
    hide KeepsSlot, Refreshed;
  }

  method RefreshOne(ctx: BlockCtx, totals: Totals, node: NodeId, bootstrap: bool) returns (stays: bool)
    requires ctx.Valid() && node in ctx.state.db.validators
    modifies ctx
    ensures ctx.Valid()
    ensures ctx.live == old(ctx.live).(validators := Written(old(ctx.live).validators, node,
      if KeepsSlot(totals, node, bootstrap) then Some(Refreshed(ctx.state.db.validators[node], totals, node))
        else None))
  {
    hide KeepsSlot, Refreshed;
    stays := KeepsSlot(totals, node, bootstrap);
    ctx.Put(WriteValidator(node, if stays then Some(Refreshed(ctx.state.db.validators[node], totals, node)) else None));
  }

  method RefreshAll(ctx: BlockCtx, candidates: seq<NodeId>, totals: Totals, bootstrap: bool) returns (active: nat)
    requires ctx.Valid() && forall n :: n in candidates ==> n in ctx.state.db.validators
    modifies ctx
    ensures ctx.Valid() && active <= |candidates|
    ensures ctx.live == old(ctx.live).(validators :=
      RotatedOver(ctx.state.db.validators, old(ctx.live).validators, totals, candidates, bootstrap))
  {
    ghost var committed, current := ctx.state.db.validators, ctx.live.validators;
    active := 0;
    RotateNone(committed, current, totals, bootstrap);
    hide RotatedOver, KeepsSlot, Refreshed, Written;
    assert candidates[..0] == [];
    for i := 0 to |candidates|
      invariant ctx.Valid() && active <= i
      invariant ctx.live ==
        old(ctx.live).(validators := RotatedOver(committed, current, totals, candidates[..i], bootstrap))
    {
      RotateOne(committed, current, totals, candidates[..i], candidates[i], bootstrap);
      assert candidates[..i + 1] == candidates[..i] + [candidates[i]];
      var stays := RefreshOne(ctx, totals, candidates[i], bootstrap);
      active := active + if stays then 1 else 0;
    }
    assert candidates[..|candidates|] == candidates;
  }

  /** Re-ranks the committed records and answers how many hold a slot. */
  method RecomputeValidatorSet(ctx: BlockCtx, height: u64) returns (active: nat)
    requires ctx.Valid()
    modifies ctx
    ensures ctx.Valid() && active <= MAX_ACTIVE_VALIDATORS
    ensures ctx.live == old(ctx.live).(validators := RotatedValidators(ctx.state.db, old(ctx.live).validators, height))
  {
    hide RotatedOver, TotalsOf, InBootstrap;
    var candidates, totals := RankCandidates(ctx.state.db);
    active := RefreshAll(ctx, candidates, totals, InBootstrap(height, |candidates|));
  }
}
