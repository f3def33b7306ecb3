/**
 The binary Merkle tree. A digest is written by what was hashed, so the leaf and
 node tags and collision freedom are built into the type; `Unrelated` stands
 for 32 bytes that are the hash of nothing known. An odd layer repeats its last
 node, unlike section 2.1 of RFC 6962.
 */
module Merkle {
  import opened Numeric

  datatype Digest = LeafHash(content: seq<u8>) | NodeHash(left: Digest, right: Digest) | Unrelated(id: nat)

  datatype MerkleProof = MerkleProof(leafIndex: nat, leafCount: nat, siblings: seq<Digest>)

  datatype MerkleTree = MerkleTree(layers: seq<seq<Digest>>)

  datatype MerkleError =
    | NoLeaves
    | IndexOutOfRange
    | WrongLength(expected: nat, got: nat)
    | SelfSiblingMismatch
    | RootMismatch

  datatype Result<+T> = Ok(value: T) | Err(error: MerkleError)

  // ----- What the tree computes -----

  function HalfUp(n: nat): nat {
    (n + 1) / 2
  }

  function Hashes(leaves: seq<seq<u8>>): seq<Digest> {
    seq(|leaves|, i requires 0 <= i < |leaves| => LeafHash(leaves[i]))
  }

  /** The index of the right child of node `i` in a layer of `width` digests. */
  function RightOf(width: nat, i: nat): nat {
    if 2 * i + 1 < width then 2 * i + 1 else 2 * i
  }

  function NextLayer(layer: seq<Digest>): seq<Digest> {
    seq(HalfUp(|layer|), i requires 0 <= i < HalfUp(|layer|) =>
      NodeHash(layer[2 * i], layer[RightOf(|layer|, i)]))
  }

  function RootOf(layer: seq<Digest>): Digest
    requires layer != []
    decreases |layer|
  {
    if |layer| == 1 then layer[0] else RootOf(NextLayer(layer))
  }

  /** The Merkle root of a non-empty list of leaves. */
  function Root(leaves: seq<seq<u8>>): Digest
    requires leaves != []
  {
    RootOf(Hashes(leaves))
  }

  /** Number of layers above a layer of `width` nodes. */
  function Height(width: nat): nat {
    if width <= 1 then 0 else 1 + Height(HalfUp(width))
  }

  function SiblingIndex(width: nat, idx: nat): nat {
    if idx % 2 == 0 then (if idx + 1 < width then idx + 1 else idx) else idx - 1
  }

  /** The sibling path from `layer[idx]` to the root. */
  function Siblings(layer: seq<Digest>, idx: nat): seq<Digest>
    requires idx < |layer|
    decreases |layer|
  {
    if |layer| == 1 then []
    else [layer[SiblingIndex(|layer|, idx)]] + Siblings(NextLayer(layer), idx / 2)
  }

  /** The digest a proof leads to from `current`, unless a self-sibling is wrong. */
  function Climb(current: Digest, idx: nat, width: nat, siblings: seq<Digest>): Result<Digest>
    decreases |siblings|
  {
    if siblings == [] then Ok(current)
    else
      var s := siblings[0];
      if idx % 2 == 0 && idx + 1 == width && width % 2 == 1 then
        if s != current then Err(SelfSiblingMismatch)
        else Climb(NodeHash(current, current), idx / 2, HalfUp(width), siblings[1..])
      else
        Climb(if idx % 2 == 0 then NodeHash(current, s) else NodeHash(s, current),
          idx / 2, HalfUp(width), siblings[1..])
  }

  predicate Accepts(root: Digest, leaf: seq<u8>, proof: MerkleProof) {
    && proof.leafIndex < proof.leafCount
    && |proof.siblings| == Height(proof.leafCount)
    && Climb(LeafHash(leaf), proof.leafIndex, proof.leafCount, proof.siblings) == Ok(root)
  }

  // ----- The operations -----

  ghost predicate ValidTree(t: MerkleTree) {
    && t.layers != []
    && (forall i :: 0 <= i < |t.layers| ==> t.layers[i] != [])
    && (forall i :: 0 <= i < |t.layers| - 1 ==> |t.layers[i]| > 1 && t.layers[i + 1] == NextLayer(t.layers[i]))
    && |t.layers[|t.layers| - 1]| == 1
  }

  method NewTree(leaves: seq<seq<u8>>) returns (r: Result<MerkleTree>)
    ensures leaves == [] <==> r == Err(NoLeaves)
    ensures leaves != [] ==> r.Ok? && ValidTree(r.value) && r.value.layers[0] == Hashes(leaves)
  {
    var leafHashes := Hashes(leaves);
    if leafHashes == [] {
      return Err(NoLeaves);
    }
    var layers := [leafHashes];
    while |layers[|layers| - 1]| > 1
      invariant layers != [] && layers[0] == leafHashes
      invariant forall i :: 0 <= i < |layers| ==> layers[i] != []
      invariant forall i :: 0 <= i < |layers| - 1 ==> |layers[i]| > 1 && layers[i + 1] == NextLayer(layers[i])
      decreases |layers[|layers| - 1]|
    {
      var prev := layers[|layers| - 1];
      var next := [];
      while |next| < HalfUp(|prev|)
        invariant |next| <= HalfUp(|prev|)
        invariant next == NextLayer(prev)[..|next|]
      {
        var left := prev[2 * |next|];
        var right := if 2 * |next| + 1 < |prev| then prev[2 * |next| + 1] else left;
        next := next + [NodeHash(left, right)];
      }
      layers := layers + [next];
    }
    r := Ok(MerkleTree(layers));
  }

  /** The root of the layers from `i` up is always the same digest. */
  lemma {:induction false} LayersShareRoot(t: MerkleTree, i: nat)
    requires ValidTree(t) && i < |t.layers|
    ensures RootOf(t.layers[i]) == t.layers[|t.layers| - 1][0]
    ensures |t.layers| - 1 - i == Height(|t.layers[i]|)
    decreases |t.layers| - i
  {
    if i < |t.layers| - 1 {
      LayersShareRoot(t, i + 1);
    }
  }

  method TreeRoot(t: MerkleTree) returns (root: Digest)
    requires ValidTree(t)
    ensures root == RootOf(t.layers[0])
  {
    LayersShareRoot(t, 0);
    root := t.layers[|t.layers| - 1][0];
  }

  lemma SiblingsUp(layer: seq<Digest>, idx: nat)
    requires idx < |layer|
    ensures |layer| == 1 ==> Siblings(layer, idx) == []
    ensures |layer| > 1 ==>
      && SiblingIndex(|layer|, idx) < |layer| && idx / 2 < |NextLayer(layer)|
      && Siblings(layer, idx) == [layer[SiblingIndex(|layer|, idx)]] + Siblings(NextLayer(layer), idx / 2)
  {
  }

  method Prove(t: MerkleTree, index: nat) returns (r: Result<MerkleProof>)
    requires ValidTree(t)
    ensures index >= |t.layers[0]| <==> r == Err(IndexOutOfRange)
    ensures index < |t.layers[0]| ==> r == Ok(MerkleProof(index, |t.layers[0]|, Siblings(t.layers[0], index)))
  {
    var leafCount := |t.layers[0]|;
    if index >= leafCount {
      return Err(IndexOutOfRange);
    }
    hide Siblings, NextLayer, SiblingIndex;
    var siblings, idx: nat := [], index;
    assert siblings + Siblings(t.layers[0], idx) == Siblings(t.layers[0], index);
    for i := 0 to |t.layers| - 1
      invariant idx < |t.layers[i]|
      invariant siblings + Siblings(t.layers[i], idx) == Siblings(t.layers[0], index)
    {
      var layer := t.layers[i];
      SiblingsUp(layer, idx);
      var s := SiblingIndex(|layer|, idx);
      siblings := siblings + [layer[s]];
      idx := idx / 2;
    }
    SiblingsUp(t.layers[|t.layers| - 1], idx);
    assert siblings + [] == siblings;
    r := Ok(MerkleProof(index, leafCount, siblings));
  }

  method ExpectedSiblings(width: nat) returns (n: nat)
    ensures n == Height(width)
  {
    var w := width;
    n := 0;
    while w > 1
      invariant n + Height(w) == Height(width)
    {
      w := HalfUp(w);
      n := n + 1;
    }
  }

  method VerifyProof(root: Digest, leaf: seq<u8>, proof: MerkleProof) returns (r: Result<()>)
    ensures r.Ok? <==> Accepts(root, leaf, proof)
    ensures proof.leafIndex >= proof.leafCount <==> r == Err(IndexOutOfRange)
    ensures proof.leafIndex < proof.leafCount && |proof.siblings| != Height(proof.leafCount) <==>
      r == Err(WrongLength(Height(proof.leafCount), |proof.siblings|))
    ensures proof.leafIndex < proof.leafCount && |proof.siblings| == Height(proof.leafCount) ==>
      var top := Climb(LeafHash(leaf), proof.leafIndex, proof.leafCount, proof.siblings);
      (top.Err? <==> r == Err(SelfSiblingMismatch)) && (top.Ok? && top.value != root <==> r == Err(RootMismatch))
  {
    if proof.leafIndex >= proof.leafCount {
      return Err(IndexOutOfRange);
    }
    var expected := 0;
    if proof.leafCount > 1 {
      expected := ExpectedSiblings(proof.leafCount);
    }
    if |proof.siblings| != expected {
      return Err(WrongLength(expected, |proof.siblings|));
    }
    var current, idx, width := LeafHash(leaf), proof.leafIndex, proof.leafCount;
    for i := 0 to |proof.siblings|
      invariant idx < width
      invariant Climb(current, idx, width, proof.siblings[i..]) ==
        Climb(LeafHash(leaf), proof.leafIndex, proof.leafCount, proof.siblings)
    {
      var sibling := proof.siblings[i];
      assert proof.siblings[i..][0] == sibling && proof.siblings[i..][1..] == proof.siblings[i + 1..];
      var onLeft := idx % 2 == 0;
      if onLeft && idx == width - 1 && width % 2 == 1 {
        if sibling != current {
          assert Climb(current, idx, width, proof.siblings[i..]) == Err(SelfSiblingMismatch);
          return Err(SelfSiblingMismatch);
        }
        current := NodeHash(current, current);
      } else if onLeft {
        current := NodeHash(current, sibling);
      } else {
        current := NodeHash(sibling, current);
      }
      idx, width := idx / 2, HalfUp(width);
    }
    r := if current == root then Ok(()) else Err(RootMismatch);
  }

  // ----- Soundness -----

  /** The leaf contents below a digest. */
  ghost function Contents(d: Digest): set<seq<u8>> {
    match d
    case LeafHash(c) => {c}
    case NodeHash(l, r) => Contents(l) + Contents(r)
    case Unrelated(_) => {}
  }

  lemma {:induction false} ClimbKeepsContents(current: Digest, idx: nat, width: nat, siblings: seq<Digest>)
    requires Climb(current, idx, width, siblings).Ok?
    ensures Contents(current) <= Contents(Climb(current, idx, width, siblings).value)
    decreases |siblings|
  {
    if siblings != [] {
      var s := siblings[0];
      var next :=
        if idx % 2 == 0 && idx + 1 == width && width % 2 == 1 then NodeHash(current, current)
        else if idx % 2 == 0 then NodeHash(current, s) else NodeHash(s, current);
      ClimbKeepsContents(next, idx / 2, HalfUp(width), siblings[1..]);
    }
  }

  lemma {:induction false} RootContents(layer: seq<Digest>, c: seq<u8>) returns (i: nat)
    requires layer != [] && c in Contents(RootOf(layer))
    ensures i < |layer| && c in Contents(layer[i])
    decreases |layer|
  {
    if |layer| == 1 {
      i := 0;
    } else {
      var j := RootContents(NextLayer(layer), c);
      i := if c in Contents(layer[2 * j]) then 2 * j else RightOf(|layer|, j);
    }
  }

  /** An accepted proof is for a leaf of the list, whatever leaf count it claims. */
  lemma AcceptedLeafOccurs(leaves: seq<seq<u8>>, leaf: seq<u8>, proof: MerkleProof)
    requires leaves != [] && Accepts(Root(leaves), leaf, proof)
    ensures leaf in leaves
  {
    ClimbKeepsContents(LeafHash(leaf), proof.leafIndex, proof.leafCount, proof.siblings);
    var i := RootContents(Hashes(leaves), leaf);
    assert Hashes(leaves)[i] == LeafHash(leaves[i]);
  }

  // ----- Exactness: one accepted proof per index -----

  /** One step up lands on the right parent exactly from the right child and sibling. */
  lemma StepPins(layer: seq<Digest>, current: Digest, idx: nat, s: Digest)
    requires |layer| > 1 && idx < |layer|
    ensures (if idx % 2 == 0 then NodeHash(current, s) else NodeHash(s, current)) == NextLayer(layer)[idx / 2] <==>
      current == layer[idx] && s == layer[SiblingIndex(|layer|, idx)]
  {
    assert NextLayer(layer)[idx / 2] == NodeHash(layer[2 * (idx / 2)], layer[RightOf(|layer|, idx / 2)]);
  }

  lemma {:induction false} ClimbPins(layer: seq<Digest>, current: Digest, idx: nat, siblings: seq<Digest>)
    requires idx < |layer| && |siblings| == Height(|layer|)
    ensures Climb(current, idx, |layer|, siblings) == Ok(RootOf(layer)) <==>
      current == layer[idx] && siblings == Siblings(layer, idx)
    decreases |layer|
  {
    if |layer| > 1 {
      var s, rest, next := siblings[0], siblings[1..], NextLayer(layer);
      var node := if idx % 2 == 0 then NodeHash(current, s) else NodeHash(s, current);
      ClimbPins(next, node, idx / 2, rest);
      StepPins(layer, current, idx, s);
      assert siblings == [s] + rest;
      var here := [layer[SiblingIndex(|layer|, idx)]];
      assert Siblings(layer, idx) == here + Siblings(next, idx / 2);
      assert siblings == Siblings(layer, idx) <==> s == here[0] && rest == Siblings(next, idx / 2) by {
        if siblings == Siblings(layer, idx) {
          assert rest == Siblings(layer, idx)[1..] == Siblings(next, idx / 2);
        }
      }
    }
  }

  lemma {:induction false} SiblingsLength(layer: seq<Digest>, idx: nat)
    requires idx < |layer|
    ensures |Siblings(layer, idx)| == Height(|layer|)
    decreases |layer|
  {
    if |layer| > 1 {
      SiblingsLength(NextLayer(layer), idx / 2);
    }
  }

  /** When the claimed count is the real one, exactly the generated proof of the
      leaf at that index is accepted. */
  lemma AcceptsExactly(leaves: seq<seq<u8>>, leaf: seq<u8>, proof: MerkleProof)
    requires leaves != [] && proof.leafCount == |leaves|
    ensures Accepts(Root(leaves), leaf, proof) <==>
      && proof.leafIndex < |leaves|
      && leaf == leaves[proof.leafIndex]
      && proof.siblings == Siblings(Hashes(leaves), proof.leafIndex)
  {
    if proof.leafIndex < |leaves| {
      SiblingsLength(Hashes(leaves), proof.leafIndex);
      if |proof.siblings| == Height(|leaves|) {
        ClimbPins(Hashes(leaves), LeafHash(leaf), proof.leafIndex, proof.siblings);
      }
    }
  }

  ghost function Pow2(n: nat): (p: nat)
    ensures p > 0
  {
    if n == 0 then 1 else 2 * Pow2(n - 1)
  }

  /** The height is the ceiling of the base-2 logarithm. */
  lemma {:induction false} HeightIsCeilLog2(n: nat)
    requires n >= 1
    ensures n <= Pow2(Height(n))
    ensures n > 1 ==> Pow2(Height(n) - 1) < n
  {
    if n > 1 {
      HeightIsCeilLog2(HalfUp(n));
      if n > 2 {
        assert Pow2(Height(n) - 1) == 2 * Pow2(Height(n) - 2);
      }
    }
  }

  /** Every generated proof verifies and has one sibling per layer below the root. */
  lemma GeneratedProofVerifies(leaves: seq<seq<u8>>, index: nat)
    requires index < |leaves|
    ensures Accepts(Root(leaves), leaves[index], MerkleProof(index, |leaves|, Siblings(Hashes(leaves), index)))
    ensures |Siblings(Hashes(leaves), index)| == Height(|leaves|)
    ensures |leaves| <= Pow2(Height(|leaves|)) && (|leaves| > 1 ==> Pow2(Height(|leaves|) - 1) < |leaves|)
  {
    hide Accepts, Root, Siblings, Pow2, Height;
    var proof := MerkleProof(index, |leaves|, Siblings(Hashes(leaves), index));
    assert Accepts(Root(leaves), leaves[index], proof) by {
      AcceptsExactly(leaves, leaves[index], proof);
    }
    assert |proof.siblings| == Height(|leaves|) by {
      SiblingsLength(Hashes(leaves), index);
    }
    HeightIsCeilLog2(|leaves|);
  }

  // ----- Binding -----

  /** The list index whose digest fills slot `p` of the full tree over a layer of `width`. */
  ghost function Origin(width: nat, p: nat): nat {
    if width <= 1 then 0
    else
      var q := Origin(HalfUp(width), p / 2);
      if p % 2 == 0 then 2 * q else RightOf(width, q)
  }

  lemma {:induction false} OriginInRange(width: nat, p: nat)
    requires width >= 1
    ensures Origin(width, p) < width
  {
    if width > 1 {
      OriginInRange(HalfUp(width), p / 2);
    }
  }

  ghost predicate SlotsAgree<T>(a: seq<T>, b: seq<T>)
    requires a != [] && b != []
  {
    forall p: nat :: p < Pow2(Height(|a|)) ==>
      (OriginInRange(|a|, p); OriginInRange(|b|, p); a[Origin(|a|, p)] == b[Origin(|b|, p)])
  }

  lemma ParentSlot(a: seq<Digest>, b: seq<Digest>, p: nat)
    requires |a| > 1 && |b| > 1 && Height(|a|) == Height(|b|) && p < Pow2(Height(|a|))
    requires SlotsAgree(NextLayer(a), NextLayer(b))
    ensures Origin(|a|, p) < |a| && Origin(|b|, p) < |b|
    ensures a[Origin(|a|, p)] == b[Origin(|b|, p)]
  {
    OriginInRange(|a|, p);
    OriginInRange(|b|, p);
    var a', b', q := NextLayer(a), NextLayer(b), p / 2;
    OriginInRange(|a'|, q);
    OriginInRange(|b'|, q);
    assert q < Pow2(Height(|a'|));
    assert a'[Origin(|a'|, q)] == b'[Origin(|b'|, q)];
  }

  /** Slot `q` of the next layer joins slots `2q` and `2q + 1` of this one. */
  lemma ChildSlot(a: seq<Digest>, q: nat)
    requires |a| > 1
    ensures Origin(|a|, 2 * q) < |a| && Origin(|a|, 2 * q + 1) < |a|
      && Origin(HalfUp(|a|), q) < HalfUp(|a|) == |NextLayer(a)|
    ensures NextLayer(a)[Origin(HalfUp(|a|), q)] == NodeHash(a[Origin(|a|, 2 * q)], a[Origin(|a|, 2 * q + 1)])
  {
    OriginInRange(HalfUp(|a|), q);
    assert 2 * q / 2 == q && (2 * q + 1) / 2 == q;
  }

  lemma ChildSlots(a: seq<Digest>, b: seq<Digest>, q: nat)
    requires |a| > 1 && |b| > 1 && Height(|a|) == Height(|b|)
    requires q < Pow2(Height(HalfUp(|a|)))
    requires SlotsAgree(a, b)
    ensures Origin(HalfUp(|a|), q) < HalfUp(|a|) && Origin(HalfUp(|b|), q) < HalfUp(|b|)
    ensures NextLayer(a)[Origin(HalfUp(|a|), q)] == NextLayer(b)[Origin(HalfUp(|b|), q)]
  {
    ChildSlot(a, q);
    ChildSlot(b, q);
    hide Origin, NextLayer;
    assert 2 * q < Pow2(Height(|a|)) && 2 * q + 1 < Pow2(Height(|a|));
    assert a[Origin(|a|, 2 * q)] == b[Origin(|b|, 2 * q)];
    assert a[Origin(|a|, 2 * q + 1)] == b[Origin(|b|, 2 * q + 1)];
  }

  lemma {:induction false} RootsAgree(a: seq<Digest>, b: seq<Digest>)
    requires a != [] && b != [] && Height(|a|) == Height(|b|)
    ensures RootOf(a) == RootOf(b) <==> SlotsAgree(a, b)
    decreases |a|
  {
    if |a| == 1 {
      assert Origin(|a|, 0) == 0 == Origin(|b|, 0);
    } else {
      var a', b' := NextLayer(a), NextLayer(b);
      RootsAgree(a', b');
      if SlotsAgree(a', b') {
        forall p: nat | p < Pow2(Height(|a|))
          ensures (OriginInRange(|a|, p); OriginInRange(|b|, p); a[Origin(|a|, p)] == b[Origin(|b|, p)])
        {
          ParentSlot(a, b, p);
        }
      }
      if SlotsAgree(a, b) {
        forall q: nat | q < Pow2(Height(|a'|))
          ensures (OriginInRange(|a'|, q); OriginInRange(|b'|, q); a'[Origin(|a'|, q)] == b'[Origin(|b'|, q)])
        {
          ChildSlots(a, b, q);
        }
      }
    }
  }

  ghost predicate Perfect(d: Digest, h: nat) {
    if h == 0 then d.LeafHash?
    else d.NodeHash? && Perfect(d.left, h - 1) && Perfect(d.right, h - 1)
  }

  lemma {:induction false} RootIsPerfect(layer: seq<Digest>, h: nat)
    requires layer != [] && forall d :: d in layer ==> Perfect(d, h)
    ensures Perfect(RootOf(layer), h + Height(|layer|))
    decreases |layer|
  {
    if |layer| > 1 {
      RootIsPerfect(NextLayer(layer), h + 1);
    }
  }

  lemma {:induction false} PerfectHeightUnique(d: Digest, h: nat, k: nat)
    requires Perfect(d, h) && Perfect(d, k)
    ensures h == k
    decreases h
  {
    if h > 0 {
      PerfectHeightUnique(d.left, h - 1, k - 1);
    }
  }

  lemma HashedSlots(a: seq<seq<u8>>, b: seq<seq<u8>>)
    requires a != [] && b != []
    ensures SlotsAgree(Hashes(a), Hashes(b)) <==> SlotsAgree(a, b)
  {
    var x, y := Hashes(a), Hashes(b);
    forall p: nat | p < Pow2(Height(|a|))
      ensures Origin(|a|, p) < |a| && Origin(|b|, p) < |b|
      ensures x[Origin(|a|, p)] == y[Origin(|b|, p)] <==> a[Origin(|a|, p)] == b[Origin(|b|, p)]
    {
      OriginInRange(|a|, p);
      OriginInRange(|b|, p);
    }
  }

  /** Two lists have the same root exactly when their trees have the same height
      and the same leaf in every slot, repeated last nodes included. */
  lemma SameRootExactly(a: seq<seq<u8>>, b: seq<seq<u8>>)
    requires a != [] && b != []
    ensures Root(a) == Root(b) <==> Height(|a|) == Height(|b|) && SlotsAgree(a, b)
  {
    RootIsPerfect(Hashes(a), 0);
    RootIsPerfect(Hashes(b), 0);
    if Root(a) == Root(b) {
      PerfectHeightUnique(Root(a), Height(|a|), Height(|b|));
    }
    if Height(|a|) == Height(|b|) {
      RootsAgree(Hashes(a), Hashes(b));
      HashedSlots(a, b);
    }
  }

  lemma {:induction false} SlotsCover(width: nat, i: nat) returns (p: nat)
    requires i < width
    ensures p < Pow2(Height(width)) && Origin(width, p) == i
    decreases width
  {
    if width == 1 {
      p := 0;
    } else {
      var q := SlotsCover(HalfUp(width), i / 2);
      p := 2 * q + i % 2;
    }
  }

  /** Equal roots of lists of equal length: equal lists. */
  lemma EqualRootsSameLengthEqualLists(a: seq<seq<u8>>, b: seq<seq<u8>>)
    requires a != [] && |a| == |b| && Root(a) == Root(b)
    ensures a == b
  {
    SameRootExactly(a, b);
    forall i | 0 <= i < |a|
      ensures a[i] == b[i]
    {
      var p := SlotsCover(|a|, i);
      OriginInRange(|a|, p);
    }
  }

  /** The tags do not stop a repeated last leaf: every odd list of three or more
      leaves shares its root with the same list followed by its last leaf. */
  lemma RepeatedLastLeafSameRoot(a: seq<seq<u8>>)
    requires |a| >= 3 && |a| % 2 == 1
    ensures Root(a) == Root(a + [a[|a| - 1]])
  {
    var b := a + [a[|a| - 1]];
    var x, y := NextLayer(Hashes(a)), NextLayer(Hashes(b));
    assert |x| == |y|;
    forall i | 0 <= i < |x|
      ensures x[i] == y[i]
    {
    }
    assert x == y;
  }

  // ----- The shape of the root -----

  lemma LayersJoin(l: seq<Digest>, r: seq<Digest>)
    requires |l| == |r| && |l| % 2 == 0
    ensures NextLayer(l + r) == NextLayer(l) + NextLayer(r)
  {
  }

  lemma {:induction false} RootOfJoined(l: seq<Digest>, r: seq<Digest>, k: nat)
    requires |l| == |r| == Pow2(k)
    ensures RootOf(l + r) == NodeHash(RootOf(l), RootOf(r))
    decreases k
  {
    if k == 0 {
      var layer := l + r;
      assert layer == [l[0], r[0]] && HalfUp(2) == 1 && RightOf(2, 0) == 1;
      assert NextLayer(layer) == [NodeHash(l[0], r[0])];
    } else {
      LayersJoin(l, r);
      RootOfJoined(NextLayer(l), NextLayer(r), k - 1);
    }
  }

  /** The root is the hash of its left and its right half, in this order, down to single leaves. */
  lemma RootOfHalves(l: seq<seq<u8>>, r: seq<seq<u8>>, k: nat)
    requires |l| == |r| == Pow2(k)
    ensures Root(l + r) == NodeHash(Root(l), Root(r))
    ensures k == 0 ==> Root(l) == LeafHash(l[0]) && Root(r) == LeafHash(r[0])
  {
    assert Hashes(l + r) == Hashes(l) + Hashes(r);
    RootOfJoined(Hashes(l), Hashes(r), k);
  }

  /** The third of three leaves is doubled. */
  lemma RootOfThree(a: seq<u8>, b: seq<u8>, c: seq<u8>)
    ensures Root([a, b, c]) == NodeHash(NodeHash(LeafHash(a), LeafHash(b)), NodeHash(LeafHash(c), LeafHash(c)))
  {
    var hashes := Hashes([a, b, c]);
    assert hashes == [LeafHash(a), LeafHash(b), LeafHash(c)];
    assert HalfUp(3) == 2 && RightOf(3, 0) == 1 && RightOf(3, 1) == 2 && HalfUp(2) == 1 && RightOf(2, 0) == 1;
    var layer := NextLayer(hashes);
    assert layer == [NodeHash(LeafHash(a), LeafHash(b)), NodeHash(LeafHash(c), LeafHash(c))];
    assert NextLayer(layer) == [NodeHash(layer[0], layer[1])];
    assert RootOf(hashes) == RootOf(layer) == RootOf(NextLayer(layer));
  }
}
