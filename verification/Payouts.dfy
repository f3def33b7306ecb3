/**
 What the mint of an epoch boundary pays: the budget of an epoch, what a queued reward is
 worth, and what every account gains. Amounts and fractions are written as numbers.
 */
module Payouts {
  import opened Numeric
  import opened Division
  import opened Types
  import opened LedgerSpec
  import opened Delegators
  import opened Emission
  import opened Effects
  import KeyOrder
  import Rewards

  // ----- Budgets -----

  function Pow2(n: nat): (p: nat)
    ensures p > 0
  {
    if n == 0 then 1 else 2 * Pow2(n - 1)
  }

  lemma DivTwice(n: nat, a: nat)
    requires a > 0
    ensures n / 2 / a == n / (2 * a)
  {
    var q := n / (2 * a);
    assert q * (2 * a) <= n < q * (2 * a) + 2 * a;
    assert 2 * (q * a) == q * (2 * a);
    DivUnique(n / 2, q, a);
  }

  lemma {:induction false} HalvedIs(n: nat, times: nat)
    ensures Halved(n, times) == n / Pow2(times)
  {
    if times > 0 {
      HalvedIs(n / 2, times - 1);
      DivTwice(n, Pow2(times - 1));
    }
  }

  /** Whole ARK of a year: 120, 105, 90 and 80 million, then 100 million halved once every four years. */
  function YearlyArk(year: nat): nat {
    if year == 0 then 120_000_000
    else if year == 1 then 105_000_000
    else if year == 2 then 90_000_000
    else if year == 3 then 80_000_000
    else 100_000_000 / Pow2(year / 4)
  }

  lemma EighthOfHundred(h: nat)
    ensures 12_500_000 / Pow2(h) == 100_000_000 / Pow2(h + 3)
  {
    assert Pow2(h + 3) == 2 * Pow2(h + 2) && Pow2(h + 2) == 2 * Pow2(h + 1) && Pow2(h + 1) == 2 * Pow2(h);
    DivTwice(100_000_000, Pow2(h + 2));
    DivTwice(50_000_000, Pow2(h + 1));
    DivTwice(25_000_000, Pow2(h));
  }

  lemma SmallPowers()
    ensures Pow2(1) == 2 && Pow2(2) == 4 && Pow2(3) == 8
  {
  }

  /** An epoch's budget is the year's amount in units of 10^-9 ARK over 8,760 epochs, the year being
      31,536,000 blocks; there is none from year 524 on, where the shift aborts. */
  lemma BudgetExactly(height: u64)
    ensures var year := height / 31_536_000;
      if year < 524 then EpochBudget(height) == Some(YearlyArk(year) * 1_000_000_000 / 8_760)
      else EpochBudget(height) == None
  {
    var year := height / 31_536_000;
    SmallPowers();
    if year >= 16 {
      var h := (year - 16 + 4) / 4;
      assert h + 3 == year / 4;
      HalvedIs(12_500_000, h);
      EighthOfHundred(h);
    }
  }

  // ----- One reward -----

  lemma OneRate(tokens: u32, perToken: u128)
    requires tokens * perToken <= 120_000_000 * 1_000_000_000
    ensures BaseReward(tokens, perToken) == tokens * perToken
  {
    MulMono(perToken, 0, tokens);
  }

  lemma RateFits(budget: u128, tokens: nat, part: u32)
    requires part <= tokens
    ensures var rate := if tokens == 0 then 0 else budget / tokens;
      PerToken(budget, tokens) == rate && 0 <= part * rate <= budget
  {
    var rate := if tokens == 0 then 0 else budget / tokens;
    if tokens > 0 {
      assert rate * tokens <= budget;
    }
    MulMono(rate, part, tokens);
    MulMono(rate, 0, part);
  }

  lemma WorthAt(p: PendingReward, rate: u128)
    requires p.outputTokens * rate <= 120_000_000 * 1_000_000_000 && RewardOf(p, rate).Some?
    ensures RewardOf(p, rate) == Some(p.outputTokens * rate * (p.teeBps * p.httpsBps / 10_000) / 10_000)
  {
    OneRate(p.outputTokens, rate);
    hide BaseReward;
  }

  /** A queued reward of the ending epoch is worth its tokens at the rate budget over all tokens of the epoch,
      scaled by the two multipliers, each division rounding down. */
  lemma WorthExactly(base: Columns, jobs: seq<JobId>, job: JobId, height: u64)
    requires Queued(base, jobs) && job in jobs && EpochBudget(height).Some?
    ensures var p, budget, tokens := base.pendingRewards[job], EpochBudget(height).value, TokensOf(base, jobs);
      var rate := if tokens == 0 then 0 else budget / tokens;
      RewardOf(p, PerToken(budget, tokens)) ==
        Some(p.outputTokens * rate * (p.teeBps * p.httpsBps / 10_000) / 10_000)
  {
    hide RewardOf, EpochBudget, TokensOf, PerToken;
    var p, budget, tokens := base.pendingRewards[job], EpochBudget(height).value, TokensOf(base, jobs);
    RewardFits(base, jobs, job, height);
    TokensOfMember(base, jobs, job);
    RateFits(budget, tokens, p.outputTokens);
    WorthAt(p, PerToken(budget, tokens));
  }

  // ----- The delegators -----

  /** The delegations that share: those to compute positions of the node, each once, in key order. */
  lemma DelegationsAre(base: Columns, node: NodeId) returns (keys: seq<StakeKey>)
    ensures forall k :: k in keys <==> k in base.stakes && k.node == node && k.role == Compute && k.delegator.Some?
    ensures forall i, j :: 0 <= i < j < |keys| ==> keys[i] != keys[j] && KeyOrder.BelowStake(keys[i], keys[j])
    ensures var ds := Delegations(base, node);
      && |ds| == |keys|
      && (forall i :: 0 <= i < |keys| ==>
           keys[i] in keys && ds[i] == Delegation(keys[i].delegator.value, base.stakes[keys[i]].amount))
  {
    hide KeyOrder.BelowStake;
    keys := KeyOrder.StakesInOrder(set k | k in base.stakes && Delegates(k, node));
  }

  /** What of `shares` goes to the address `a`. */
  function SharedBy(ds: seq<Delegation>, shares: seq<nat>, a: Address): nat
    requires |shares| == |ds|
  {
    if ds == [] then 0
    else
      var n := |ds| - 1;
      SharedBy(ds[..n], shares[..n], a) + if ds[n].holder == a then shares[n] else 0
  }

  lemma {:induction false} SharesReach(accounts: Accounts, ds: seq<Delegation>, shares: seq<nat>, a: Address)
    requires Payable(ds, shares)
    ensures AccountAt(CreditedAll(accounts, ds, shares), a) == Gains(AccountAt(accounts, a), SharedBy(ds, shares, a))
    decreases |ds|
  {
    hide CreditIfPositive, AccountAt;
    if ds != [] {
      var n := |ds| - 1;
      PayablePrefix(ds, shares, n);
      SharesReach(accounts, ds[..n], shares[..n], a);
      PaidReads(CreditedAll(accounts, ds[..n], shares[..n]), ds[n].holder, shares[n], a);
    }
  }

  /** What the delegators' part `total` pays to `a`: the shares of its delegations to the node the compute
      address operates; all of it to that address where nobody has anything at stake. */
  function DelegatorsGet(base: Columns, compute: Address, total: u128, a: Address): nat {
    var ds := Sharers(base, compute);
    if SumOf(Amounts(ds)) == 0 then (if a == compute then total else 0)
    else SharedBy(ds, SharesOf(total, Amounts(ds)), a)
  }

  lemma {:induction false} NothingShared(ds: seq<Delegation>, shares: seq<nat>, a: Address)
    requires |shares| == |ds| && SumOf(shares) == 0
    ensures SharedBy(ds, shares, a) == 0
  {
    if ds != [] {
      NothingShared(ds[..|ds| - 1], shares[..|ds| - 1], a);
    }
  }

  lemma DistributedReaches(base: Columns, accounts: Accounts, compute: Address, total: u128, a: Address)
    requires Distributed(base, accounts, compute, total).Some?
    ensures AccountAt(Distributed(base, accounts, compute, total).value, a) ==
      Gains(AccountAt(accounts, a), DelegatorsGet(base, compute, total, a))
  {
    hide CreditedAll, SharesOf, Sharers, AccountAt, Credit, SharedBy;
    var ds := Sharers(base, compute);
    PaidReads(accounts, compute, total, a);
    if SumOf(Amounts(ds)) > 0 {
      var shares := SharesOf(total, Amounts(ds));
      SharesPayable(total, ds);
      SharesReach(accounts, ds, shares, a);
      SharesAddUp(total, Amounts(ds));
      if total == 0 {
        NothingShared(ds, shares, a);
      }
    }
  }

  // ----- The mint -----

  /** What a reward of `total` pays to `a` before the delegators: compute 80%, the verifier 7%, the treasury
      what 3% burned and 5% for delegators leave of the rest. */
  function MintPart(total: u128, p: PendingReward, a: Address): int {
    (if a == p.compute then total * 80 / 100 else 0)
    + (if a == p.verifier then total * 7 / 100 else 0)
    + (if a == p.treasury then total - total * 80 / 100 - total * 7 / 100 - total * 3 / 100 - total * 5 / 100 else 0)
  }

  lemma PaidSharesReach(accounts: Accounts, p: PendingReward, total: u128, a: Address)
    ensures MintPart(total, p, a) >= 0
    ensures AccountAt(PaidShares(accounts, p, total), a) == Gains(AccountAt(accounts, a), MintPart(total, p, a))
  {
    hide CreditIfPositive, AccountAt, Gains;
    PartsFit(total);
    SplitAddsUp(total);
    var s := SplitOf(total);
    var one := CreditIfPositive(accounts, p.compute, s.compute);
    var two := CreditIfPositive(one, p.verifier, s.verifier);
    PaidReads(accounts, p.compute, s.compute, a);
    PaidReads(one, p.verifier, s.verifier, a);
    PaidReads(two, p.treasury, s.treasury, a);
    var x: nat := if p.compute == a then s.compute else 0;
    var y: nat := if p.verifier == a then s.verifier else 0;
    var z: nat := if p.treasury == a then s.treasury else 0;
    GainsTwice(AccountAt(accounts, a), x, y);
    GainsTwice(AccountAt(accounts, a), x + y, z);
  }

  lemma NothingToPay(base: Columns, p: PendingReward, a: Address, acct: Account)
    ensures MintPart(0, p, a) == 0 && DelegatorsGet(base, p.compute, 0, a) == 0 && Gains(acct, 0) == acct
  {
    hide Sharers, SharesOf, SharedBy;
    var ds := Sharers(base, p.compute);
    if SumOf(Amounts(ds)) > 0 {
      SharesAddUp(0, Amounts(ds));
      NothingShared(ds, SharesOf(0, Amounts(ds)), a);
    }
  }

  /** One queued reward worth `reward`: it is paid as far as the budget goes, every account gains its part
      and what the delegators' twentieth gives it, and it leaves the queue exactly when something is paid. */
  lemma MintOnePays(base: Columns, b: MintBook, job: JobId, perToken: u128, budget: u128, a: Address)
    requires job in base.pendingRewards && MintOne(base, b, job, perToken, budget).Some?
    requires b.minted <= budget <= TOTAL_SUPPLY_CAP
    ensures RewardOf(base.pendingRewards[job], perToken).Some?
    ensures var p, after := base.pendingRewards[job], MintOne(base, b, job, perToken, budget).value;
      var g: u128 := Min(RewardOf(p, perToken).value, budget - b.minted);
      && MintPart(g, p, a) >= 0 && 0 <= g * 5 / 100 <= g
      && AccountAt(after.accounts, a) ==
           Gains(AccountAt(b.accounts, a), MintPart(g, p, a) + DelegatorsGet(base, p.compute, g * 5 / 100, a))
      && after.minted == b.minted + g && after.burned == b.burned + g * 3 / 100
      && after.pendingRewards == b.pendingRewards - if g > 0 then {job} else {}
  {
    hide RewardOf, AccountAt, PaidShares, Distributed, DelegatorsGet, MintPart, Gains;
    var p := base.pendingRewards[job];
    var g: u128 := Min(RewardOf(p, perToken).value, budget - b.minted);
    assert Granted(RewardOf(p, perToken).value, budget, b.minted) == g;
    PartsFit(g);
    PaidSharesReach(b.accounts, p, g, a);
    if g > 0 {
      DistributedReaches(base, PaidShares(b.accounts, p, g), p.compute, g * 5 / 100, a);
      GainsTwice(AccountAt(b.accounts, a), MintPart(g, p, a), DelegatorsGet(base, p.compute, g * 5 / 100, a));
    } else {
      NothingToPay(base, p, a, AccountAt(b.accounts, a));
      assert b.pendingRewards - {} == b.pendingRewards;
    }
  }

  /** What the rewards of `jobs`, taken in turn, pay to `a`. */
  function MintParts(base: Columns, jobs: seq<JobId>, perToken: u128, budget: u128, a: Address): int
    requires Queued(base, jobs)
    decreases |jobs|
  {
    if jobs == [] then 0
    else
      var earlier, p := jobs[..|jobs| - 1], base.pendingRewards[jobs[|jobs| - 1]];
      var g: u128 := Min(RewardOf(p, perToken).GetOr(0), budget - Rewards.MintedSoFar(base, earlier, perToken, budget));
      PartsFit(g);
      MintParts(base, earlier, perToken, budget, a) + MintPart(g, p, a) + DelegatorsGet(base, p.compute, g * 5 / 100, a)
  }

  /** The whole mint: every account gains exactly its parts of all rewards, clamped once. */
  lemma {:induction false} MintPays(base: Columns, b: MintBook, jobs: seq<JobId>, perToken: u128, budget: u128,
      a: Address)
    requires Queued(base, jobs) && MintMany(base, b, jobs, perToken, budget).Some?
    requires b.minted == 0 && budget <= TOTAL_SUPPLY_CAP
    ensures MintParts(base, jobs, perToken, budget, a) >= 0
    ensures AccountAt(MintMany(base, b, jobs, perToken, budget).value.accounts, a) ==
      Gains(AccountAt(b.accounts, a), MintParts(base, jobs, perToken, budget, a))
    decreases |jobs|
  {
    hide MintOne, RewardOf, AccountAt, MintPart, DelegatorsGet;
    if jobs != [] {
      var earlier, job := jobs[..|jobs| - 1], jobs[|jobs| - 1];
      MintPays(base, b, earlier, perToken, budget, a);
      Rewards.MintDequeues(base, b, earlier, perToken, budget);
      var before := MintMany(base, b, earlier, perToken, budget).value;
      MintOnePays(base, before, job, perToken, budget, a);
      var p := base.pendingRewards[job];
      var g: u128 := Min(RewardOf(p, perToken).value, budget - before.minted);
      GainsTwice(AccountAt(b.accounts, a), MintParts(base, earlier, perToken, budget, a),
        MintPart(g, p, a) + DelegatorsGet(base, p.compute, g * 5 / 100, a));
    }
  }
}
