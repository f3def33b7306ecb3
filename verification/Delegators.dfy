/**
 The delegators' cut of a block reward, split pro rata by stake with the remainder to
 the last delegator.
 */
module Delegators {
  import opened Numeric
  import opened Division
  import opened Types
  import opened LedgerSpec
  import opened Store
  import opened KeyOrder
  import opened MapSums
  import Supply

  function SumOf(xs: seq<nat>): nat {
    if xs == [] then 0 else SumOf(xs[..|xs| - 1]) + xs[|xs| - 1]
  }

  lemma SumSnoc(xs: seq<nat>, x: nat)
    ensures SumOf(xs + [x]) == SumOf(xs) + x
  {
    assert (xs + [x])[..|xs|] == xs;
  }

  lemma {:induction false} SumPrefix(xs: seq<nat>, n: nat)
    requires n <= |xs|
    ensures SumOf(xs[..n]) <= SumOf(xs)
    decreases |xs|
  {
    if n < |xs| {
      assert xs[..|xs| - 1][..n] == xs[..n];
      SumPrefix(xs[..|xs| - 1], n);
    } else {
      assert xs[..n] == xs;
    }
  }

  // ----- The shares -----

  /** Floor share of one stake, with a saturating product. */
  function Floor(total: u128, amount: nat, bonded: nat): nat
    requires bonded > 0
  {
    Min(total * amount, U128_MAX) / bonded
  }

  function Floors(total: u128, amounts: seq<nat>, bonded: nat): seq<nat>
    requires bonded > 0
  {
    seq(|amounts|, i requires 0 <= i < |amounts| => Floor(total, amounts[i], bonded))
  }

  lemma FloorsSnoc(total: u128, amounts: seq<nat>, bonded: nat)
    requires bonded > 0 && amounts != []
    ensures var n := |amounts| - 1;
      Floors(total, amounts, bonded) == Floors(total, amounts[..n], bonded) + [Floor(total, amounts[n], bonded)]
  {
  }

  lemma FloorTimes(total: u128, amount: nat, bonded: nat)
    requires bonded > 0
    ensures 0 <= Floor(total, amount, bonded) * bonded <= total * amount
  {
    MulMono(total, 0, amount);
    MulMono(bonded, 0, Floor(total, amount, bonded));
  }

  /** The last amount and the sums before it. */
  lemma SumsSplit(total: u128, amounts: seq<nat>, bonded: nat)
    requires bonded > 0 && amounts != []
    ensures var n := |amounts| - 1;
      && SumOf(amounts) == SumOf(amounts[..n]) + amounts[n]
      && SumOf(Floors(total, amounts, bonded)) ==
         SumOf(Floors(total, amounts[..n], bonded)) + Floor(total, amounts[n], bonded)
  {
    var n := |amounts| - 1;
    FloorsSnoc(total, amounts, bonded);
    SumSnoc(Floors(total, amounts[..n], bonded), Floor(total, amounts[n], bonded));
  }

  /** One step of an additive bound: u1 <= t * s1 and u2 <= t * s2. */
  lemma AddBounds(u1: nat, u2: nat, b: nat, t: nat, s1: nat, s2: nat)
    requires u1 * b <= t * s1 && u2 * b <= t * s2
    ensures (u1 + u2) * b <= t * (s1 + s2)
  {
    AddTimes(u1, u2, b);
    AddTimes(s1, s2, t);
  }

  lemma NothingToSplit(total: u128, bonded: nat)
    requires bonded > 0
    ensures SumOf([]) == 0 == SumOf(Floors(total, [], bonded))
  {
  }

  lemma {:induction false} FloorsWithinTotal(total: u128, amounts: seq<nat>, bonded: nat)
    requires bonded > 0
    ensures SumOf(Floors(total, amounts, bonded)) * bonded <= total * SumOf(amounts)
  {
    hide Floor, Floors, SumOf;
    if amounts != [] {
      var n := |amounts| - 1;
      FloorsWithinTotal(total, amounts[..n], bonded);
      SumsSplit(total, amounts, bonded);
      FloorTimes(total, amounts[n], bonded);
      AddBounds(SumOf(Floors(total, amounts[..n], bonded)), Floor(total, amounts[n], bonded), bonded,
        total, SumOf(amounts[..n]), amounts[n]);
    } else {
      NothingToSplit(total, bonded);
    }
  }

  lemma CancelTimes(x: nat, y: nat, b: nat)
    requires b > 0 && x * b <= y * b
    ensures x <= y
  {
    if x > y {
      MulMono(b, y + 1, x);
    }
  }

  /** The floors of any part of the stakes never exceed the total. */
  lemma FloorsFit(total: u128, amounts: seq<nat>, n: nat)
    requires n <= |amounts| && SumOf(amounts) > 0
    ensures SumOf(Floors(total, amounts[..n], SumOf(amounts))) <= total
  {
    hide Floor, Floors;
    var bonded := SumOf(amounts);
    var part := SumOf(Floors(total, amounts[..n], bonded));
    FloorsWithinTotal(total, amounts[..n], bonded);
    SumPrefix(amounts, n);
    MulMono(total, SumOf(amounts[..n]), bonded);
    CancelTimes(part, total, bonded);
  }

  /** What each delegator gets: its floor share, the last one whatever remains. */
  function SharesOf(total: u128, amounts: seq<nat>): (r: seq<nat>)
    requires SumOf(amounts) > 0
    ensures |r| == |amounts|
  {
    var n := |amounts| - 1;
    var floors := Floors(total, amounts[..n], SumOf(amounts));
    FloorsFit(total, amounts, n);
    floors + [total - SumOf(floors)]
  }

  /** The shares add up to exactly the total, even where products saturate. */
  lemma SharesAddUp(total: u128, amounts: seq<nat>)
    requires SumOf(amounts) > 0
    ensures SumOf(SharesOf(total, amounts)) == total
  {
    var n := |amounts| - 1;
    var floors := Floors(total, amounts[..n], SumOf(amounts));
    FloorsFit(total, amounts, n);
    SumSnoc(floors, total - SumOf(floors));
  }

  predicate NoSaturation(total: u128, amounts: seq<nat>) {
    forall a :: a in amounts ==> total * a <= U128_MAX
  }

  /** An unsaturated floor share, times the bonded total, is the product up to a remainder. */
  lemma FloorExact(total: u128, amount: nat, bonded: nat)
    requires bonded > 0 && total * amount <= U128_MAX
    ensures Floor(total, amount, bonded) == total * amount / bonded
    ensures Floor(total, amount, bonded) * bonded <= total * amount <=
      Floor(total, amount, bonded) * bonded + (bonded - 1)
  {
    MulMono(total, 0, amount);
    var product: nat := total * amount;
    assert Floor(total, amount, bonded) == product / bonded;
  }

  lemma AddRemainders(u1: nat, u2: nat, b: nat, t: nat, s1: nat, s2: nat, n: nat)
    requires b > 0 && u1 * b <= t * s1 <= u1 * b + n * (b - 1) && u2 * b <= t * s2 <= u2 * b + (b - 1)
    ensures (u1 + u2) * b <= t * (s1 + s2) <= (u1 + u2) * b + (n + 1) * (b - 1)
  {
    AddTimes(u1, u2, b);
    AddTimes(s1, s2, t);
    AddTimes(n, 1, b - 1);
  }

  /** What the floors leave over is below one unit of stake per delegator. */
  lemma {:induction false} LeftOver(total: u128, amounts: seq<nat>, bonded: nat)
    requires bonded > 0 && NoSaturation(total, amounts)
    ensures var used := SumOf(Floors(total, amounts, bonded)) * bonded;
      used <= total * SumOf(amounts) <= used + |amounts| * (bonded - 1)
  {
    hide Floor, Floors, SumOf;
    if amounts != [] {
      var n := |amounts| - 1;
      forall a | a in amounts[..n] ensures a in amounts {}
      LeftOver(total, amounts[..n], bonded);
      SumsSplit(total, amounts, bonded);
      assert total * amounts[n] <= U128_MAX by { assert amounts[n] in amounts; }
      FloorExact(total, amounts[n], bonded);
      AddRemainders(SumOf(Floors(total, amounts[..n], bonded)), Floor(total, amounts[n], bonded), bonded,
        total, SumOf(amounts[..n]), amounts[n], n);
    } else {
      NothingToSplit(total, bonded);
    }
  }

  /** used * b <= t * b <= used * b + k * (b - 1) bounds t - used. */
  lemma Squeeze(t: nat, used: nat, b: nat, k: nat)
    requires b > 0 && k > 0 && used * b <= t * b <= used * b + k * (b - 1)
    ensures used <= t <= used + k - 1
  {
    CancelTimes(used, t, b);
    AddTimes(used, k, b);
    AddTimes(b - 1, 1, k);
    if t >= used + k {
      MulMono(b, used + k, t);
      assert false;
    }
  }

  /** Without saturation every delegator but the last gets the floor of its exact share,
      and the last at most one unit per other delegator above its own floor. */
  lemma SharesAreFair(total: u128, amounts: seq<nat>)
    requires SumOf(amounts) > 0 && NoSaturation(total, amounts)
    ensures var n, shares := |amounts| - 1, SharesOf(total, amounts);
      && (forall i :: 0 <= i < n ==> shares[i] == total * amounts[i] / SumOf(amounts))
      && total * amounts[n] / SumOf(amounts) <= shares[n] <= total * amounts[n] / SumOf(amounts) + n
  {
    var n, bonded := |amounts| - 1, SumOf(amounts);
    forall i | 0 <= i < |amounts|
      ensures Floor(total, amounts[i], bonded) == total * amounts[i] / bonded
    {
      assert amounts[i] in amounts;
      FloorExact(total, amounts[i], bonded);
    }
    var all := SumOf(Floors(total, amounts, bonded));
    LeftOver(total, amounts, bonded);
    SumsSplit(total, amounts, bonded);
    FloorsFit(total, amounts, n);
    Squeeze(total, all, bonded, |amounts|);
  }

  // ----- The distribution -----

  /** A delegator's position with a node. */
  datatype Delegation = Delegation(holder: Address, amount: u128)

  /** The first validator in key order that this address operates. */
  function OperatedNode(base: Columns, operator: Address): (r: Option<NodeId>)
    ensures r.Some? <==> exists n :: n in base.validators && base.validators[n].operator == operator
    ensures r.Some? ==> r.value in base.validators && base.validators[r.value].operator == operator
    ensures r.Some? ==>
      forall n :: n in base.validators && base.validators[n].operator == operator ==> r.value.id <= n.id
  {
    var operated := set n | n in base.validators && base.validators[n].operator == operator;
    var nodes := NodesInOrder(operated);
    if nodes == [] then
      assert forall n :: n in base.validators && base.validators[n].operator == operator ==>
        n in operated && n in nodes;
      None
    else
      assert nodes[0] in nodes && nodes[0] in operated;
      assert forall n :: n in operated ==> n in nodes && (n == nodes[0] || nodes[0].id < n.id);
      Some(nodes[0])
  }

  predicate Delegates(k: StakeKey, node: NodeId) {
    k.node == node && k.role == Compute && k.delegator.Some?
  }

  /** The delegations to a compute node, in key order. */
  function Delegations(base: Columns, node: NodeId): (r: seq<Delegation>) {
    var keys := StakesInOrder(set k | k in base.stakes && Delegates(k, node));
    assert forall i :: 0 <= i < |keys| ==> keys[i] in keys;
    seq(|keys|, i requires 0 <= i < |keys| => Delegation(keys[i].delegator.value, base.stakes[keys[i]].amount))
  }

  function Amounts(ds: seq<Delegation>): seq<nat> {
    seq(|ds|, i requires 0 <= i < |ds| => ds[i].amount)
  }

  predicate Payable(ds: seq<Delegation>, shares: seq<nat>) {
    |shares| == |ds| && forall x :: x in shares ==> x <= U128_MAX
  }

  lemma PayablePrefix(ds: seq<Delegation>, shares: seq<nat>, n: nat)
    requires Payable(ds, shares) && n <= |ds|
    ensures Payable(ds[..n], shares[..n])
    ensures n < |ds| ==> shares[n] <= U128_MAX
  {
    forall x | x in shares[..n] ensures x in shares {}
    if n < |ds| {
      assert shares[n] in shares;
    }
  }

  function CreditedAll(accounts: Accounts, ds: seq<Delegation>, shares: seq<nat>): Accounts
    requires Payable(ds, shares)
    decreases |ds|
  {
    if ds == [] then accounts
    else
      var n := |ds| - 1;
      PayablePrefix(ds, shares, n);
      CreditIfPositive(CreditedAll(accounts, ds[..n], shares[..n]), ds[n].holder, shares[n])
  }

  lemma {:induction false} ShareBound(xs: seq<nat>, x: nat)
    requires x in xs
    ensures x <= SumOf(xs)
  {
    if x != xs[|xs| - 1] {
      ShareBound(xs[..|xs| - 1], x);
    }
  }

  lemma SharesPayable(total: u128, ds: seq<Delegation>)
    requires SumOf(Amounts(ds)) > 0
    ensures Payable(ds, SharesOf(total, Amounts(ds)))
  {
    var shares := SharesOf(total, Amounts(ds));
    SharesAddUp(total, Amounts(ds));
    forall x | x in shares
      ensures x <= U128_MAX
    {
      ShareBound(shares, x);
    }
  }

  /** The delegations that share in the reward of an address. */
  function Sharers(base: Columns, compute: Address): seq<Delegation> {
    var node := OperatedNode(base, compute);
    if node.None? then [] else Delegations(base, node.value)
  }

  /** Accounts after `total` is split; `None` when the stakes overflow when added up. */
  function Distributed(base: Columns, accounts: Accounts, compute: Address, total: u128): Option<Accounts> {
    var ds := Sharers(base, compute);
    var bonded := SumOf(Amounts(ds));
    if total == 0 then Some(accounts)
    else if bonded > U128_MAX then None
    else if bonded == 0 then Some(Credit(accounts, compute, total))
    else
      SharesPayable(total, ds);
      Some(CreditedAll(accounts, ds, SharesOf(total, Amounts(ds))))
  }

  method SumStakes(ds: seq<Delegation>) returns (sum: nat)
    ensures sum == SumOf(Amounts(ds))
  {
    sum := 0;
    assert Amounts(ds[..0]) == [];
    for i := 0 to |ds|
      invariant sum == SumOf(Amounts(ds[..i]))
    {
      assert Amounts(ds[..i + 1]) == Amounts(ds[..i]) + [ds[i].amount];
      SumSnoc(Amounts(ds[..i]), ds[i].amount);
      sum := sum + ds[i].amount;
    }
    assert ds[..|ds|] == ds;
  }

  ghost predicate CreditedSoFar(before: Columns, live: Columns, ds: seq<Delegation>, shares: seq<nat>, i: nat) {
    && i <= |ds| && Payable(ds, shares)
    && (PayablePrefix(ds, shares, i); live == before.(accounts := CreditedAll(before.accounts, ds[..i], shares[..i])))
  }

  method CreditShare(ctx: BlockCtx, ds: seq<Delegation>, ghost shares: seq<nat>, i: nat, share: u128,
      ghost before: Columns)
    requires ctx.Valid() && i < |ds| && CreditedSoFar(before, ctx.live, ds, shares, i) && share == shares[i]
    modifies ctx
    ensures ctx.Valid() && CreditedSoFar(before, ctx.live, ds, shares, i + 1)
  {
    assert ds[..i + 1][..i] == ds[..i] && shares[..i + 1][..i] == shares[..i];
    PayablePrefix(ds, shares, i);
    PayablePrefix(ds, shares, i + 1);
    if share > 0 {
      ctx.CreditAccount(ds[i].holder, share);
    }
  }

  lemma ShareInTurn(total: u128, ds: seq<Delegation>, i: nat)
    requires SumOf(Amounts(ds)) > 0 && i < |ds|
    ensures var shares := SharesOf(total, Amounts(ds));
      shares[i] == if i == |ds| - 1 then total - SumOf(shares[..i])
                   else SatMul128(total, ds[i].amount) / SumOf(Amounts(ds))
    ensures SumOf(SharesOf(total, Amounts(ds))[..i]) <= total
  {
    var shares, n := SharesOf(total, Amounts(ds)), |ds| - 1;
    SharesAddUp(total, Amounts(ds));
    SumPrefix(shares, i);
    if i < n {
      assert shares[i] == Floor(total, Amounts(ds)[..n][i], SumOf(Amounts(ds)));
    } else {
      assert shares[..n] == Floors(total, Amounts(ds)[..n], SumOf(Amounts(ds)));
    }
  }

  method CreditDelegators(ctx: BlockCtx, total: u128, ds: seq<Delegation>, bonded: u128)
    requires ctx.Valid() && bonded == SumOf(Amounts(ds)) > 0
    modifies ctx
    ensures ctx.Valid()
    ensures var shares := SharesOf(total, Amounts(ds));
      && Payable(ds, shares)
      && ctx.live == old(ctx.live).(accounts := CreditedAll(old(ctx.live).accounts, ds, shares))
  {
    ghost var shares := SharesOf(total, Amounts(ds));
    SharesPayable(total, ds);
    var distributed: u128 := 0;
    var count := |ds|;
    assert shares[..0] == [] && ds[..0] == [];
    for i := 0 to count
      invariant ctx.Valid()
      invariant distributed == SumOf(shares[..i])
      invariant CreditedSoFar(old(ctx.live), ctx.live, ds, shares, i)
    {
      ShareInTurn(total, ds, i);
      SumPrefix(shares, i + 1);
      assert shares[..i + 1] == shares[..i] + [shares[i]];
      SumSnoc(shares[..i], shares[i]);
      var share := if i == count - 1 then SatSub128(total, distributed) else SatMul128(total, ds[i].amount) / bonded;
      assert share == shares[i];
      CreditShare(ctx, ds, shares, i, share, old(ctx.live));
      distributed := SatAdd128(distributed, share);
    }
    assert shares[..count] == shares && ds[..count] == ds;
  }

  /** Splits the delegators' cut; answers whether adding up the stakes overflowed. */
  method DistributeToDelegators(ctx: BlockCtx, compute: Address, total: u128) returns (overflow: bool)
    requires ctx.Valid()
    modifies ctx
    ensures ctx.Valid()
    ensures match Distributed(ctx.state.db, old(ctx.live).accounts, compute, total)
      case None => overflow
      case Some(accounts) => !overflow && ctx.live == old(ctx.live).(accounts := accounts)
  {
    hide CreditedAll, SharesOf, Credit, Delegations, OperatedNode;
    overflow := false;
    if total == 0 {
      return;
    }
    var node := OperatedNode(ctx.state.db, compute);
    if node.None? {
      ctx.CreditAccount(compute, total);
      return;
    }
    var ds := Delegations(ctx.state.db, node.value);
    if ds == [] {
      ctx.CreditAccount(compute, total);
      return;
    }
    var bonded := SumStakes(ds);
    if bonded > U128_MAX {
      return true;
    }
    if bonded == 0 {
      ctx.CreditAccount(compute, total);
      return;
    }
    CreditDelegators(ctx, total, ds, bonded);
  }

  // ----- Nothing is lost -----

  lemma {:induction false} CreditedAllSum(accounts: Accounts, ds: seq<Delegation>, shares: seq<nat>)
    requires Payable(ds, shares) && Sum(accounts, Supply.Balance) + SumOf(shares) <= U128_MAX
    ensures Sum(CreditedAll(accounts, ds, shares), Supply.Balance) == Sum(accounts, Supply.Balance) + SumOf(shares)
    decreases |ds|
  {
    if ds != [] {
      var n := |ds| - 1;
      PayablePrefix(ds, shares, n);
      CreditedAllSum(accounts, ds[..n], shares[..n]);
      Supply.CreditSum(CreditedAll(accounts, ds[..n], shares[..n]), ds[n].holder, shares[n]);
    }
  }

  /** Whatever the stakes, the balances grow by exactly the delegators' cut. */
  lemma DistributedAddsTotal(base: Columns, accounts: Accounts, compute: Address, total: u128)
    requires Distributed(base, accounts, compute, total).Some? && Sum(accounts, Supply.Balance) + total <= U128_MAX
    ensures Sum(Distributed(base, accounts, compute, total).value, Supply.Balance) ==
      Sum(accounts, Supply.Balance) + total
  {
    hide CreditedAll, SharesOf, Credit, Sharers;
    Supply.CreditSum(accounts, compute, total);
    var ds := Sharers(base, compute);
    if total > 0 && SumOf(Amounts(ds)) > 0 {
      SharesAddUp(total, Amounts(ds));
      SharesPayable(total, ds);
      CreditedAllSum(accounts, ds, SharesOf(total, Amounts(ds)));
    }
  }
}
