/**
 Facts about products and floor division of naturals that the solver does not
 find by itself.
 */
module Division {
  lemma MulMono(x: nat, a: nat, b: nat)
    requires a <= b
    ensures x * a <= x * b
  {
    assert x * b == x * a + x * (b - a);
    assert x * (b - a) >= 0;
  }

  lemma AddTimes(a: nat, b: nat, c: nat)
    ensures (a + b) * c == a * c + b * c
  {
  }

  lemma DivMono(a: nat, b: nat, t: nat)
    requires a <= b && t > 0
    ensures a / t <= b / t
  {
    if a / t > b / t {
      MulMono(t, b / t + 1, a / t);
    }
  }

  /** The quotient is the only `q` with `q * t <= n < q * t + t`. */
  lemma DivUnique(n: nat, q: nat, t: nat)
    requires t > 0 && q * t <= n < q * t + t
    ensures n / t == q
  {
    var k := n / t;
    if k < q {
      MulMono(t, k + 1, q);
    } else if k > q {
      MulMono(t, q + 1, k);
    }
  }

  lemma DivShift(p: nat, d: nat, t: nat)
    requires t > 0
    ensures 0 <= d * t && (p + d * t) / t == p / t + d
  {
    MulMono(t, 0, d);
    assert (p / t + d) * t == (p / t) * t + d * t;
    DivUnique(p + d * t, p / t + d, t);
  }

  /** At most `x` multiples of `t` fit in `p`. */
  lemma DivLe(p: nat, x: nat, t: nat)
    requires t > 0 && p <= x * t
    ensures p / t <= x
  {
    DivMono(p, x * t, t);
    DivShift(0, x, t);
  }

  /** At least `x` multiples of `t` fit in `p`. */
  lemma DivGe(p: nat, x: nat, t: nat)
    requires t > 0 && x * t <= p
    ensures x <= p / t
  {
    MulMono(t, 0, x);
    DivMono(x * t, p, t);
    DivShift(0, x, t);
  }

  /** Fewer than `x` multiples of `t` fit in `p`. */
  lemma DivLess(p: nat, x: nat, t: nat)
    requires t > 0 && p < x * t
    ensures p / t < x
  {
    if x <= p / t {
      MulMono(t, x, p / t);
    }
  }
}
