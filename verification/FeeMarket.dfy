/**
 The base-fee rule of EIP-1559 as the node computes it, with saturating products.
 */
module FeeMarket {
  import opened Numeric
  import opened Division

  const BASE_FEE_MAX_CHANGE_DENOM: u128 := 8
  const MIN_BASE_FEE: u128 := 1
  const TARGET_GAS_PER_BLOCK: u64 := 15_000_000

  datatype FeeResult = Fee(value: u128) | ZeroTarget

  /** An eighth of `fee * gap / target`, with a saturating product. */
  function Scaled(fee: u128, gap: u64, target: u64): (r: u128)
    requires target > 0
  {
    var product := SatMul128(fee, gap);
    MulMono(product, 1, target);
    DivLe(product, product, target);
    product / target / BASE_FEE_MAX_CHANGE_DENOM
  }

  function NextBaseFee(parentFee: u128, used: u64, target: u64): FeeResult {
    if target == 0 then ZeroTarget
    else if used == target then Fee(Max(parentFee, MIN_BASE_FEE))
    else if used > target then
      Fee(Max(SatAdd128(parentFee, Max(Scaled(parentFee, used - target, target), 1)), MIN_BASE_FEE))
    else
      Fee(Max(SatSub128(parentFee, Scaled(parentFee, target - used, target)), MIN_BASE_FEE))
  }

  lemma ScaledIs(fee: u128, gap: u64, target: u64, d: nat)
    requires 0 < target && 8 * (d * target) <= Min(fee * gap, U128_MAX) < 8 * ((d + 1) * target)
    ensures Scaled(fee, gap, target) == d
  {
    var p: nat := SatMul128(fee, gap);
    AddTimes(d, 1, target);
    assert 8 * (d * target) == (8 * d) * target;
    DivGe(p, 8 * d, target);
    DivLess(p, 8 * (d + 1), target);
  }

  /** The fee after a block, without divisions: with `d` an eighth of fee times distance from target over
      target, clamped and rounded down, it falls by `d` under target, to no less than one; it rises by
      `d` above, by no less than one and clamped; and at target it stays, zero becoming one. */
  lemma StepExactly(fee: u128, used: u64, target: u64, d: nat)
    requires 0 < target
    requires var gap := if used < target then target - used else used - target;
      8 * (d * target) <= Min(fee * gap, U128_MAX) < 8 * ((d + 1) * target)
    ensures NextBaseFee(fee, used, target) == Fee(
      if used < target then Max(fee - d, 1)
      else if used > target then Min(fee + Max(d, 1), U128_MAX)
      else Max(fee, 1))
  {
    if used != target {
      ScaledIs(fee, if used < target then target - used else used - target, target, d);
    }
  }

  /** And such a `d` always exists. */
  lemma StepIsDefined(fee: u128, used: u64, target: u64) returns (d: nat)
    requires 0 < target
    ensures var gap := if used < target then target - used else used - target;
      8 * (d * target) <= Min(fee * gap, U128_MAX) < 8 * ((d + 1) * target)
  {
    var p: nat := SatMul128(fee, if used < target then target - used else used - target);
    d := p / (8 * target);
    AddTimes(d, 1, target);
  }

  lemma EighthBound(fee: u128, gap: u64, target: u64)
    requires 0 < target && gap <= target
    ensures Scaled(fee, gap, target) <= fee / 8
  {
    var p: nat := SatMul128(fee, gap);
    var q: nat := p / target;
    assert q <= fee by {
      MulMono(fee, gap, target);
      DivLe(p, fee, target);
    }
    DivMono(q, fee, 8);
  }

  /** Within twice the target, one step moves the fee by at most an eighth of it
      or one unit, and never below one. */
  lemma StepBound(fee: u128, used: u64, target: u64)
    requires 0 < target && used <= 2 * target
    ensures var next := NextBaseFee(fee, used, target).value;
      && 1 <= next
      && -Max(1, fee / 8) <= next - fee <= Max(1, fee / 8)
  {
    var gap: u64 := if used > target then used - target else target - used;
    EighthBound(fee, gap, target);
  }

  lemma ScaledMonoGap(fee: u128, gap: u64, gap': u64, target: u64)
    requires 0 < target && gap <= gap'
    ensures Scaled(fee, gap, target) <= Scaled(fee, gap', target)
  {
    MulMono(fee, gap, gap');
    var p, p' := SatMul128(fee, gap), SatMul128(fee, gap');
    assert p <= p';
    DivMono(p, p', target);
    DivMono(p / target, p' / target, 8);
  }

  /** More gas never lowers the next fee. */
  lemma MonotoneInGas(fee: u128, used: u64, used': u64, target: u64)
    requires 0 < target && used <= used'
    ensures NextBaseFee(fee, used, target).value <= NextBaseFee(fee, used', target).value
  {
    if used' < target {
      ScaledMonoGap(fee, target - used', target - used, target);
    } else if used > target {
      ScaledMonoGap(fee, used - target, used' - target, target);
    }
  }

  /** One more unit of fee scales to at most one more unit. */
  lemma {:induction false} ScaledSlope(fee: u128, fee': u128, gap: u64, target: u64)
    requires 0 < target && fee <= fee'
    ensures Scaled(fee, gap, target) <= Scaled(fee', gap, target)
    ensures gap <= target ==> Scaled(fee', gap, target) <= Scaled(fee, gap, target) + (fee' - fee)
  {
    assert fee * gap <= fee' * gap by { MulMono(gap, fee, fee'); }
    var p, p' := SatMul128(fee, gap), SatMul128(fee', gap);
    assert p <= p';
    DivMono(p, p', target);
    DivMono(p / target, p' / target, 8);
    if gap <= target {
      var d := fee' - fee;
      assert p' <= p + d * target by {
        assert fee' * gap == fee * gap + d * gap;
        MulMono(d, gap, target);
      }
      DivMono(p', p + d * target, target);
      DivShift(p, d, target);
      DivMono(p' / target, p / target + d, 8);
    }
  }

  /** A higher parent fee never gives a lower next fee. */
  lemma MonotoneInFee(fee: u128, fee': u128, used: u64, target: u64)
    requires 0 < target && fee <= fee'
    ensures NextBaseFee(fee, used, target).value <= NextBaseFee(fee', used, target).value
  {
    if used > target {
      ScaledSlope(fee, fee', used - target, target);
    } else if used < target {
      ScaledSlope(fee, fee', target - used, target);
      EighthBound(fee, target - used, target);
      EighthBound(fee', target - used, target);
    }
  }

  /** Fee after `n` empty blocks. */
  function AfterEmptyBlocks(fee: u128, target: u64, n: nat): u128
    requires target > 0
  {
    if n == 0 then fee else NextBaseFee(AfterEmptyBlocks(fee, target, n - 1), 0, target).value
  }

  lemma EmptyBlockStep(fee: u128, target: u64)
    requires target > 0 && fee >= 7
    ensures var next := NextBaseFee(fee, 0, target).value;
      if fee == 7 then next == 7 else 7 <= next < fee
  {
    EighthBound(fee, target, target);
    if fee >= 8 {
      var p := SatMul128(fee, target);
      assert p >= 8 * target by {
        MulMono(target, 8, fee);
      }
      DivMono(8 * target, p, target);
      DivShift(0, 8, target);
      assert p / target >= 8;
    }
  }

  /** Empty blocks bring every fee of at least 7 down to exactly 7, where it stays. */
  lemma {:induction false} EmptyBlocksSettleAtSeven(fee: u128, target: u64, n: nat)
    requires target > 0 && fee >= 7
    ensures AfterEmptyBlocks(fee, target, n) >= 7
    ensures n >= fee - 7 ==> AfterEmptyBlocks(fee, target, n) == 7
    ensures AfterEmptyBlocks(fee, target, n) <= Max(7, fee - n)
  {
    if n > 0 {
      EmptyBlocksSettleAtSeven(fee, target, n - 1);
      EmptyBlockStep(AfterEmptyBlocks(fee, target, n - 1), target);
    }
  }

  /** Whether one step moves the fee by at most an eighth of it. */
  predicate WithinEighth(fee: u128, used: u64, target: u64)
    requires 0 < target
  {
    -(fee / 8) <= NextBaseFee(fee, used, target).value - fee <= fee / 8
  }

  /** The excess scales to at most an eighth of the fee, by the product that is computed. */
  predicate SmallExcess(fee: u128, used: u64, target: u64)
    requires used > target
  {
    SatMul128(fee, used - target) < 8 * (fee / 8 + 1) * target
  }

  lemma ScaledWithinExactly(fee: u128, used: u64, target: u64)
    requires 0 < target < used
    ensures Scaled(fee, used - target, target) <= fee / 8 <==> SmallExcess(fee, used, target)
  {
    var p: nat, bound: nat := SatMul128(fee, used - target), 8 * (fee / 8 + 1);
    assert Scaled(fee, used - target, target) <= fee / 8 <==> p / target < bound;
    if p < bound * target {
      DivLess(p, bound, target);
    } else {
      DivGe(p, bound, target);
    }
  }

  /** For every fee and every block: the change is within an eighth of the parent fee exactly
      when the fee is positive and the block is at or under its target, or the fee is at least 8
      and either the excess is small or the fee is too close to its maximum to rise by more. */
  lemma EighthBoundExactly(fee: u128, used: u64, target: u64)
    requires 0 < target
    ensures WithinEighth(fee, used, target) <==>
      if used <= target then fee > 0
      else fee >= 8 && (SmallExcess(fee, used, target) || fee + fee / 8 >= U128_MAX)
  {
    if used <= target {
      EighthBound(fee, target - used, target);
    } else {
      ScaledWithinExactly(fee, used, target);
    }
  }

  /** Within twice the target every fee of at least 8 keeps the bound. */
  lemma TwiceTargetKeepsBound(fee: u128, used: u64, target: u64)
    requires 0 < target < used <= 2 * target
    ensures WithinEighth(fee, used, target) <==> fee >= 8
  {
    EighthBound(fee, used - target, target);
  }

  /** At three times the target a fee of 8 rises by 2. */
  lemma TripleTargetBreaksBound(target: u64)
    requires 0 < target && 3 * target <= U64_MAX
    ensures NextBaseFee(8, 3 * target, target) == Fee(10) && !WithinEighth(8, 3 * target, target)
  {
    assert SatMul128(8, 2 * target) == 16 * target;
    DivShift(0, 16, target);
  }
}
