/**
 Database keys as bytes: distinct ledger keys give distinct bytes, big-endian numbers sort
 as numbers, and a scan from a prefix finds exactly the keys that start with it.
 */
module Keys {
  import opened Numeric

  type Bytes = seq<u8>

  datatype Part = Absent | Present(bytes: Bytes)

  /** An optional part: a presence byte, then the bytes. */
  function PartBytes(p: Part): Bytes {
    match p
    case Absent => [0]
    case Present(b) => [1] + b
  }

  /** `node(32) | role(1) | pool?(16) | delegator?(20)`. */
  function StakeBytes(node: Bytes, role: u8, pool: Part, delegator: Part): Bytes {
    node + ([role] + (PartBytes(pool) + PartBytes(delegator)))
  }

  /** `n` as `width` bytes, most significant first. */
  function BigEndian(n: nat, width: nat): (r: Bytes)
    ensures |r| == width
    decreases width
  {
    if width == 0 then [] else BigEndian(n / 256, width - 1) + [n % 256]
  }

  /** `node(32) | id(8)`. */
  function UnbondBytes(node: Bytes, id: u64): Bytes {
    node + BigEndian(id, 8)
  }

  predicate Sized(p: Part, n: nat) {
    p.Present? ==> |p.bytes| == n
  }

  lemma AppendInjective(a: Bytes, b: Bytes, a': Bytes, b': Bytes)
    requires |a| == |a'| && a + b == a' + b'
    ensures a == a' && b == b'
  {
    assert a == (a + b)[..|a|] && a' == (a' + b')[..|a|];
    assert b == (a + b)[|a|..] && b' == (a' + b')[|a|..];
  }

  lemma PartThenInjective(p: Part, rest: Bytes, p': Part, rest': Bytes, n: nat)
    requires Sized(p, n) && Sized(p', n) && PartBytes(p) + rest == PartBytes(p') + rest'
    ensures p == p' && rest == rest'
  {
    var s, s' := PartBytes(p) + rest, PartBytes(p') + rest';
    assert s[0] == (if p.Absent? then 0 else 1) && s'[0] == (if p'.Absent? then 0 else 1);
    assert rest == s[|PartBytes(p)|..] && rest' == s'[|PartBytes(p')|..];
    if p.Present? {
      assert p.bytes == s[1..n + 1] && p'.bytes == s'[1..n + 1];
    }
  }

  lemma AppendNothing(s: Bytes)
    ensures s + [] == s
  {
  }

  /** Different stake positions never share a database key. */
  lemma StakeBytesInjective(node: Bytes, role: u8, pool: Part, delegator: Part,
    node': Bytes, role': u8, pool': Part, delegator': Part)
    requires |node| == |node'| == 32 && Sized(pool, 16) && Sized(pool', 16) && Sized(delegator, 20)
      && Sized(delegator', 20)
    requires StakeBytes(node, role, pool, delegator) == StakeBytes(node', role', pool', delegator')
    ensures node == node' && role == role' && pool == pool' && delegator == delegator'
  {
    hide PartBytes;
    var tail, tail' := PartBytes(pool) + PartBytes(delegator), PartBytes(pool') + PartBytes(delegator');
    AppendInjective(node, [role] + tail, node', [role'] + tail');
    AppendInjective([role], tail, [role'], tail');
    PartThenInjective(pool, PartBytes(delegator), pool', PartBytes(delegator'), 16);
    AppendNothing(PartBytes(delegator));
    AppendNothing(PartBytes(delegator'));
    PartThenInjective(delegator, [], delegator', [], 20);
  }

  // ----- Order -----

  predicate Below(a: Bytes, b: Bytes) {
    b != [] && (a == [] || a[0] < b[0] || (a[0] == b[0] && Below(a[1..], b[1..])))
  }

  lemma {:induction false} BelowSnoc(a: Bytes, x: u8, b: Bytes, y: u8)
    requires |a| == |b| && (Below(a, b) || (a == b && x < y))
    ensures Below(a + [x], b + [y])
  {
    if a == [] {
    } else {
      assert (a + [x])[1..] == a[1..] + [x] && (b + [y])[1..] == b[1..] + [y];
      if a[0] == b[0] {
        BelowSnoc(a[1..], x, b[1..], y);
      }
    }
  }

  /** Big-endian numbers sort in numeric order, so a scan visits identifiers in ascending order. */
  lemma {:induction false} BigEndianOrder(m: nat, n: nat, width: nat)
    requires m < n < Pow256(width)
    ensures Below(BigEndian(m, width), BigEndian(n, width))
    decreases width
  {
    if m / 256 < n / 256 {
      BigEndianOrder(m / 256, n / 256, width - 1);
    }
    BelowSnoc(BigEndian(m / 256, width - 1), m % 256, BigEndian(n / 256, width - 1), n % 256);
  }

  lemma {:induction false} BelowIrreflexive(a: Bytes)
    ensures !Below(a, a)
  {
    if a != [] {
      BelowIrreflexive(a[1..]);
    }
  }

  /** Different unbondings never share a database key. */
  lemma UnbondBytesInjective(node: Bytes, id: u64, node': Bytes, id': u64)
    requires |node| == |node'| == 32 && UnbondBytes(node, id) == UnbondBytes(node', id')
    ensures node == node' && id == id'
  {
    AppendInjective(node, BigEndian(id, 8), node', BigEndian(id', 8));
    BelowIrreflexive(BigEndian(id, 8));
    assert Pow256(8) == U64_MAX + 1;
    if id < id' {
      BigEndianOrder(id, id', 8);
    } else if id' < id {
      BigEndianOrder(id', id, 8);
    }
  }

  // ----- Prefix scans -----

  predicate Sorted(keys: seq<Bytes>) {
    forall i, j :: 0 <= i < j < |keys| ==> Below(keys[i], keys[j])
  }

  lemma {:induction false} PrefixNotBelow(p: Bytes, k: Bytes)
    requires p <= k
    ensures !Below(k, p)
  {
    if p != [] {
      assert p[1..] <= k[1..];
      PrefixNotBelow(p[1..], k[1..]);
    }
  }

  /** Keys with a common prefix are adjacent: nothing without it lies between. */
  lemma {:induction false} BetweenHasPrefix(p: Bytes, k: Bytes, later: Bytes)
    requires !Below(k, p) && Below(k, later) && p <= later
    ensures p <= k
  {
    if p != [] {
      assert p[0] == later[0];
      assert k != [] && k[0] == p[0];
      BetweenHasPrefix(p[1..], k[1..], later[1..]);
      assert k == [k[0]] + k[1..] && p == [p[0]] + p[1..];
    }
  }

  lemma {:induction false} BelowTrans(a: Bytes, b: Bytes, c: Bytes)
    requires Below(a, b) && Below(b, c)
    ensures Below(a, c)
  {
    if a != [] && a[0] == b[0] == c[0] {
      BelowTrans(a[1..], b[1..], c[1..]);
    }
  }

  /** Past the seek point no key is below the prefix. */
  lemma SeekStays(keys: seq<Bytes>, prefix: Bytes, start: nat, i: nat)
    requires Sorted(keys) && start <= i < |keys| && !Below(keys[start], prefix)
    ensures !Below(keys[i], prefix)
  {
    if start < i && Below(keys[i], prefix) {
      BelowTrans(keys[start], keys[i], prefix);
    }
  }

  /** Seeks the prefix and reads until the first key without it. */
  method ScanPrefix(keys: seq<Bytes>, prefix: Bytes) returns (found: seq<Bytes>)
    requires Sorted(keys)
    ensures forall k :: k in found <==> k in keys && prefix <= k
    ensures Sorted(found)
  {
    var i := 0;
    while i < |keys| && Below(keys[i], prefix)
      invariant 0 <= i <= |keys|
      invariant forall j :: 0 <= j < i ==> !(prefix <= keys[j])
    {
      if prefix <= keys[i] {
        PrefixNotBelow(prefix, keys[i]);
      }
      i := i + 1;
    }
    found := [];
    ghost var start := i;
    while i < |keys| && prefix <= keys[i]
      invariant start <= i <= |keys| && found == keys[start..i]
      invariant forall j :: start <= j < i ==> prefix <= keys[j]
    {
      found := found + [keys[i]];
      i := i + 1;
    }
    forall j | i <= j < |keys|
      ensures !(prefix <= keys[j])
    {
      if prefix <= keys[j] && i < j {
        SeekStays(keys, prefix, start, i);
        BetweenHasPrefix(prefix, keys[i], keys[j]);
      }
    }
  }
}
