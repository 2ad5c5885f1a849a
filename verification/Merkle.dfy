/**
  The padded Merkle tree of src/kyriotes_csk2/transparency.rs and its proofs.

  The hash is a parameter, so every statement holds for every hash function.
  Soundness is stated relative to a finite set `Q` of hashed strings: when the
  hash has no collision inside `Q` and maps nothing in `Q` to a reserved array,
  a proof means what it says. `TreeWithin` and `PathWithin` say that `Q` holds
  every string that building a tree, or folding a path, hashes.
 */
module Merkle {
  import opened Octets

  type Hash = Bytes -> Bytes32

  /** LONE_NODE_SENTINEL: the right sibling of an unpaired node. */
  const SENTINEL: Bytes32 := Repeat(0xFF, 32)

  const NODE_TAG: string := "KYRIOTES-CSK2-TRANSPARENCY-NODE-v1"

  function NodeInput(left: Bytes32, right: Bytes32): Bytes {
    Ascii(NODE_TAG) + (left + right)
  }

  lemma NodeInputInjective(a: Bytes32, b: Bytes32, c: Bytes32, d: Bytes32)
    requires NodeInput(a, b) == NodeInput(c, d)
    ensures a == c && b == d
  {
    var n := |NODE_TAG|;
    assert NodeInput(a, b)[n..n + 32] == a && NodeInput(a, b)[n + 32..] == b;
    assert NodeInput(c, d)[n..n + 32] == c && NodeInput(c, d)[n + 32..] == d;
  }

  // ----- the hash assumption, on an explicit set of queries

  ghost predicate CollisionFree(h: Hash, Q: set<Bytes>) {
    forall x, y :: x in Q && y in Q && h(x) == h(y) ==> x == y
  }

  /** No string of `Q` hashes to the empty-tree root or to the padding sentinel. */
  ghost predicate AvoidsReserved(h: Hash, Q: set<Bytes>) {
    forall x :: x in Q ==> h(x) != ZERO && h(x) != SENTINEL
  }

  ghost predicate Ideal(h: Hash, Q: set<Bytes>) {
    CollisionFree(h, Q) && AvoidsReserved(h, Q)
  }

  // ----- the tree as a function of its leaves

  /** The node at position `i` of a level; positions past the end hold the sentinel. */
  function At(level: seq<Bytes32>, i: nat): Bytes32 {
    if i < |level| then level[i] else SENTINEL
  }

  /** What is hashed to make node `i` of the level above. */
  function PairInput(level: seq<Bytes32>, i: nat): Bytes {
    NodeInput(At(level, 2 * i), At(level, 2 * i + 1))
  }

  function NextLevel(h: Hash, level: seq<Bytes32>): (next: seq<Bytes32>)
    ensures |next| == (|level| + 1) / 2
  {
    seq((|level| + 1) / 2, (i: nat) => Parent(h, level, i))
  }

  function Parent(h: Hash, level: seq<Bytes32>, i: nat): Bytes32 {
    h(PairInput(level, i))
  }

  function Root(h: Hash, leaves: seq<Bytes32>): Bytes32
    decreases |leaves|
  {
    if leaves == [] then ZERO
    else if |leaves| == 1 then leaves[0]
    else Root(h, NextLevel(h, leaves))
  }

  /** Number of levels above the leaves: the path length that the generators emit. */
  function Depth(n: nat): nat {
    if n <= 1 then 0 else 1 + Depth((n + 1) / 2)
  }

  function Sibling(level: seq<Bytes32>, i: nat): Bytes32 {
    if i % 2 == 0 then At(level, i + 1) else At(level, i - 1)
  }

  function Path(h: Hash, leaves: seq<Bytes32>, i: nat): seq<Bytes32>
    decreases |leaves|
  {
    if |leaves| <= 1 then [] else [Sibling(leaves, i)] + Path(h, NextLevel(h, leaves), i / 2)
  }

  /** What one step of folding a path hashes: the index's parity picks the side. */
  function StepInput(acc: Bytes32, sibling: Bytes32, i: nat): Bytes {
    if i % 2 == 0 then NodeInput(acc, sibling) else NodeInput(sibling, acc)
  }

  function Fold(h: Hash, acc: Bytes32, siblings: seq<Bytes32>, i: nat): Bytes32
    decreases |siblings|
  {
    if siblings == [] then acc
    else Fold(h, h(StepInput(acc, siblings[0], i)), siblings[1..], i / 2)
  }

  function Pow2(d: nat): nat {
    if d == 0 then 1 else 2 * Pow2(d - 1)
  }

  /** The `d` low-order bits of `i`, that is `i` modulo 2^d: all that folding `d` siblings reads of an index. */
  function LowBits(i: nat, d: nat): (p: nat)
    ensures p <= i && p < Pow2(d)
  {
    if d == 0 then 0 else i % 2 + 2 * LowBits(i / 2, d - 1)
  }

  // ----- what is hashed

  ghost predicate TreeWithin(h: Hash, leaves: seq<Bytes32>, Q: set<Bytes>)
    decreases |leaves|
  {
    |leaves| > 1 ==>
      && (forall i: nat :: i < (|leaves| + 1) / 2 ==> PairInput(leaves, i) in Q)
      && TreeWithin(h, NextLevel(h, leaves), Q)
  }

  ghost predicate PathWithin(h: Hash, acc: Bytes32, siblings: seq<Bytes32>, i: nat, Q: set<Bytes>)
    decreases |siblings|
  {
    siblings != [] ==>
      && StepInput(acc, siblings[0], i) in Q
      && PathWithin(h, h(StepInput(acc, siblings[0], i)), siblings[1..], i / 2, Q)
  }

  // ----- completeness

  lemma StepInputIsPairInput(level: seq<Bytes32>, i: nat)
    requires i < |level|
    ensures StepInput(level[i], Sibling(level, i), i) == PairInput(level, i / 2)
  {
    assert i % 2 == 0 ==> i == 2 * (i / 2);
    assert i % 2 != 0 ==> i == 2 * (i / 2) + 1;
  }

  /** Folding the generated path from any leaf rebuilds the root; the path has the tree's depth. */
  lemma {:induction false} PathRebuildsRoot(h: Hash, leaves: seq<Bytes32>, i: nat)
    requires i < |leaves|
    ensures Fold(h, leaves[i], Path(h, leaves, i), i) == Root(h, leaves)
    ensures |Path(h, leaves, i)| == Depth(|leaves|)
    decreases |leaves|
  {
    if |leaves| > 1 {
      var next := NextLevel(h, leaves);
      PathRebuildsRoot(h, next, i / 2);
      StepInputIsPairInput(leaves, i);
      assert Path(h, leaves, i)[1..] == Path(h, next, i / 2);
    }
  }

  /** Folding a generated path hashes nothing that building the tree did not. */
  lemma {:induction false} PathWithinTree(h: Hash, leaves: seq<Bytes32>, i: nat, Q: set<Bytes>)
    requires i < |leaves| && TreeWithin(h, leaves, Q)
    ensures PathWithin(h, leaves[i], Path(h, leaves, i), i, Q)
    decreases |leaves|
  {
    if |leaves| > 1 {
      var next := NextLevel(h, leaves);
      PathWithinTree(h, next, i / 2, Q);
      StepInputIsPairInput(leaves, i);
      assert Path(h, leaves, i)[1..] == Path(h, next, i / 2);
    }
  }

  // ----- soundness for paths of the tree's depth

  /** Two equal hashes of pairs inside `Q` have equal halves. */
  lemma SamePair(h: Hash, Q: set<Bytes>, level: seq<Bytes32>, q: nat, x: Bytes32, sibling: Bytes32, i: nat)
    requires CollisionFree(h, Q) && PairInput(level, q) in Q && StepInput(x, sibling, i) in Q
    requires h(PairInput(level, q)) == h(StepInput(x, sibling, i))
    ensures At(level, 2 * q + i % 2) == x
  {
    assert PairInput(level, q) == StepInput(x, sibling, i);
    if i % 2 == 0 {
      NodeInputInjective(At(level, 2 * q), At(level, 2 * q + 1), x, sibling);
    } else {
      NodeInputInjective(At(level, 2 * q), At(level, 2 * q + 1), sibling, x);
    }
  }

  /**
    A path of the tree's depth that folds to the root starts at the leaf in the
    position given by the index's low bits, or at the padding beside an odd last leaf.
   */
  lemma {:induction false} FoldFindsPosition(
      h: Hash, Q: set<Bytes>, leaves: seq<Bytes32>, x: Bytes32, siblings: seq<Bytes32>, i: nat)
    requires leaves != [] && |siblings| == Depth(|leaves|)
    requires Ideal(h, Q) && TreeWithin(h, leaves, Q) && PathWithin(h, x, siblings, i, Q)
    requires Fold(h, x, siblings, i) == Root(h, leaves)
    ensures At(leaves, LowBits(i, |siblings|)) == x
    ensures LowBits(i, |siblings|) < |leaves|
      || (LowBits(i, |siblings|) == |leaves| && |leaves| % 2 == 1 && x == SENTINEL)
    decreases |leaves|
  {
    if |leaves| > 1 {
      var next := NextLevel(h, leaves);
      var input := StepInput(x, siblings[0], i);
      FoldFindsPosition(h, Q, next, h(input), siblings[1..], i / 2);
      var q := LowBits(i / 2, |siblings| - 1);
      assert LowBits(i, |siblings|) == 2 * q + i % 2;
      assert q < |next| && next[q] == Parent(h, leaves, q);
      SamePair(h, Q, leaves, q, x, siblings[0], i);
    }
  }

  // ----- soundness for paths of any length, when leaves are not nodes

  /** `y` is neither reserved nor the hash of a node input of `Q`. */
  ghost predicate LeafLike(h: Hash, Q: set<Bytes>, y: Bytes32) {
    && y != ZERO
    && y != SENTINEL
    && forall l, r :: NodeInput(l, r) in Q ==> h(NodeInput(l, r)) != y
  }

  ghost predicate AllLeafLike(h: Hash, Q: set<Bytes>, leaves: seq<Bytes32>) {
    forall i :: 0 <= i < |leaves| ==> LeafLike(h, Q, leaves[i])
  }

  /** A hashed string that does not start like a node input is a leaf. */
  lemma TaggedIsLeafLike(h: Hash, Q: set<Bytes>, x: Bytes)
    requires Ideal(h, Q) && x in Q
    requires !(Ascii(NODE_TAG) <= x)
    ensures LeafLike(h, Q, h(x))
  {
    forall l, r | NodeInput(l, r) in Q
      ensures h(NodeInput(l, r)) != h(x)
    {
      assert Ascii(NODE_TAG) <= NodeInput(l, r);
    }
  }

  lemma NextLevelIsNotLeafLike(h: Hash, Q: set<Bytes>, leaves: seq<Bytes32>, p: nat)
    requires AvoidsReserved(h, Q) && |leaves| > 1 && TreeWithin(h, leaves, Q)
    ensures !LeafLike(h, Q, At(NextLevel(h, leaves), p))
  {
    if p < |NextLevel(h, leaves)| {
      assert NodeInput(At(leaves, 2 * p), At(leaves, 2 * p + 1)) == PairInput(leaves, p);
    }
  }

  lemma StepHashIsNotLeafLike(h: Hash, Q: set<Bytes>, x: Bytes32, sibling: Bytes32, i: nat)
    requires AvoidsReserved(h, Q) && StepInput(x, sibling, i) in Q
    ensures !LeafLike(h, Q, h(StepInput(x, sibling, i)))
    ensures h(StepInput(x, sibling, i)) != SENTINEL
  {
    if i % 2 == 0 {
      assert StepInput(x, sibling, i) == NodeInput(x, sibling);
    } else {
      assert StepInput(x, sibling, i) == NodeInput(sibling, x);
    }
  }

  lemma {:induction false} ShortPathIsRejected(
      h: Hash, Q: set<Bytes>, leaves: seq<Bytes32>, x: Bytes32, siblings: seq<Bytes32>, i: nat)
    requires |siblings| < Depth(|leaves|)
    requires Ideal(h, Q) && TreeWithin(h, leaves, Q) && PathWithin(h, x, siblings, i, Q)
    requires LeafLike(h, Q, x)
    ensures Fold(h, x, siblings, i) != Root(h, leaves)
    decreases |leaves|
  {
    var next := NextLevel(h, leaves);
    if |siblings| < Depth(|next|) {
      ShortPathIsRejected(h, Q, next, x, siblings, i);
    } else if Fold(h, x, siblings, i) == Root(h, next) {
      FoldFindsPosition(h, Q, next, x, siblings, i);
      NextLevelIsNotLeafLike(h, Q, leaves, LowBits(i, |siblings|));
    }
  }

  lemma {:induction false} LongPathIsRejected(
      h: Hash, Q: set<Bytes>, leaves: seq<Bytes32>, x: Bytes32, siblings: seq<Bytes32>, i: nat)
    requires leaves != [] && |siblings| > Depth(|leaves|)
    requires Ideal(h, Q) && TreeWithin(h, leaves, Q) && PathWithin(h, x, siblings, i, Q)
    requires AllLeafLike(h, Q, leaves)
    ensures Fold(h, x, siblings, i) != Root(h, leaves)
    decreases |siblings|
  {
    var up := h(StepInput(x, siblings[0], i));
    if |siblings[1..]| > Depth(|leaves|) {
      LongPathIsRejected(h, Q, leaves, up, siblings[1..], i / 2);
    } else if Fold(h, up, siblings[1..], i / 2) == Root(h, leaves) {
      FoldFindsPosition(h, Q, leaves, up, siblings[1..], i / 2);
      StepHashIsNotLeafLike(h, Q, x, siblings[0], i);
    }
  }

  /** A fold of something that was not reserved is never the empty-tree root. */
  lemma {:induction false} FoldIsNotZero(h: Hash, Q: set<Bytes>, x: Bytes32, siblings: seq<Bytes32>, i: nat)
    requires AvoidsReserved(h, Q) && PathWithin(h, x, siblings, i, Q) && x != ZERO
    ensures Fold(h, x, siblings, i) != ZERO
    decreases |siblings|
  {
    if siblings != [] {
      FoldIsNotZero(h, Q, h(StepInput(x, siblings[0], i)), siblings[1..], i / 2);
    }
  }

  /**
    Inclusion is sound for every path length and every index: a leaf-like value whose
    path folds to the root is the leaf at the index's low bits, and the path has the
    tree's depth.
   */
  lemma {:induction false} FoldFindsLeaf(
      h: Hash, Q: set<Bytes>, leaves: seq<Bytes32>, x: Bytes32, siblings: seq<Bytes32>, i: nat)
    requires Ideal(h, Q) && TreeWithin(h, leaves, Q) && PathWithin(h, x, siblings, i, Q)
    requires AllLeafLike(h, Q, leaves) && LeafLike(h, Q, x)
    requires Fold(h, x, siblings, i) == Root(h, leaves)
    ensures |siblings| == Depth(|leaves|)
    ensures LowBits(i, |siblings|) < |leaves| && leaves[LowBits(i, |siblings|)] == x
  {
    FoldIsNotZero(h, Q, x, siblings, i);
    if |siblings| < Depth(|leaves|) {
      ShortPathIsRejected(h, Q, leaves, x, siblings, i);
    } else if |siblings| > Depth(|leaves|) {
      LongPathIsRejected(h, Q, leaves, x, siblings, i);
    } else {
      FoldFindsPosition(h, Q, leaves, x, siblings, i);
    }
  }

  // ----- the root determines the leaves

  /** Trees of equal size with equal roots have equal leaves, whatever the leaves are. */
  lemma {:induction false} RootInjectiveForEqualSize(
      h: Hash, Q: set<Bytes>, s: seq<Bytes32>, t: seq<Bytes32>)
    requires |s| == |t| && Root(h, s) == Root(h, t)
    requires CollisionFree(h, Q) && TreeWithin(h, s, Q) && TreeWithin(h, t, Q)
    ensures s == t
    decreases |s|
  {
    if |s| > 1 {
      var up := NextLevel(h, s);
      RootInjectiveForEqualSize(h, Q, up, NextLevel(h, t));
      forall i | 0 <= i < |s|
        ensures s[i] == t[i]
      {
        var q := i / 2;
        assert up[q] == Parent(h, s, q) && NextLevel(h, t)[q] == Parent(h, t, q);
        assert PairInput(s, q) in Q && PairInput(t, q) in Q;
        NodeInputInjective(At(s, 2 * q), At(s, 2 * q + 1), At(t, 2 * q), At(t, 2 * q + 1));
        assert i == 2 * q || i == 2 * q + 1;
      }
    }
  }

  lemma {:induction false} LowBitsOfSmall(i: nat, d: nat)
    requires i < Pow2(d)
    ensures LowBits(i, d) == i
  {
    if d > 0 {
      LowBitsOfSmall(i / 2, d - 1);
    }
  }

  lemma {:induction false} DepthHoldsAllLeaves(n: nat)
    ensures n <= Pow2(Depth(n))
  {
    if n > 1 {
      DepthHoldsAllLeaves((n + 1) / 2);
    }
  }

  lemma LeafIsInBoth(h: Hash, Q: set<Bytes>, s: seq<Bytes32>, t: seq<Bytes32>, i: nat)
    requires Root(h, s) == Root(h, t) && Ideal(h, Q)
    requires TreeWithin(h, s, Q) && TreeWithin(h, t, Q)
    requires AllLeafLike(h, Q, s) && AllLeafLike(h, Q, t)
    requires i < |s|
    ensures i < |t| && s[i] == t[i]
  {
    PathRebuildsRoot(h, s, i);
    PathWithinTree(h, s, i, Q);
    FoldFindsLeaf(h, Q, t, s[i], Path(h, s, i), i);
    DepthHoldsAllLeaves(|s|);
    LowBitsOfSmall(i, Depth(|s|));
  }

  /** Trees of any sizes with equal roots have equal leaves, when the leaves are not nodes. */
  lemma RootInjective(h: Hash, Q: set<Bytes>, s: seq<Bytes32>, t: seq<Bytes32>)
    requires Root(h, s) == Root(h, t) && Ideal(h, Q)
    requires TreeWithin(h, s, Q) && TreeWithin(h, t, Q)
    requires AllLeafLike(h, Q, s) && AllLeafLike(h, Q, t)
    ensures s == t
  {
    if |s| < |t| {
      LeafIsInBoth(h, Q, t, s, |s|);
    } else if |t| < |s| {
      LeafIsInBoth(h, Q, s, t, |t|);
    }
    forall i | 0 <= i < |s|
      ensures s[i] == t[i]
    {
      LeafIsInBoth(h, Q, s, t, i);
    }
  }

  // ----- the loops of the source

  /** One pass of the inner loop that all the builders share. */
  method BuildNextLevel(h: Hash, level: seq<Bytes32>) returns (next: seq<Bytes32>)
    ensures next == NextLevel(h, level)
  {
    next := [];
    var i := 0;
    while i < |level|
      invariant i % 2 == 0 && i <= |level| + 1 && |next| == i / 2
      invariant next == NextLevel(h, level)[..i / 2]
    {
      var left := level[i];
      var right := if i + 1 < |level| then level[i + 1] else SENTINEL;
      next := next + [h(NodeInput(left, right))];
      assert NextLevel(h, level)[i / 2] == Parent(h, level, i / 2);
      i := i + 2;
    }
  }

  method MerkleRoot(h: Hash, leaves: seq<Bytes32>) returns (root: Bytes32)
    ensures root == Root(h, leaves)
  {
    if leaves == [] {
      return ZERO;
    }
    var level := leaves;
    while |level| > 1
      invariant level != [] && Root(h, level) == Root(h, leaves)
      decreases |level|
    {
      level := BuildNextLevel(h, level);
    }
    root := level[0];
  }

  /** The sibling recorded at one level of `merkle_proof_for_index`. */
  method SiblingOf(level: seq<Bytes32>, idx: nat) returns (sibling: Bytes32)
    requires idx < |level|
    ensures sibling == Sibling(level, idx)
  {
    if idx % 2 == 0 {
      if idx + 1 < |level| {
        sibling := level[idx + 1];
      } else {
        sibling := SENTINEL;
      }
    } else {
      sibling := level[idx - 1];
    }
  }

  /** `merkle_proof_for_index`, which transparency.rs and capability_tree.rs each hold a copy of. */
  method ProofForIndex(h: Hash, leaves: seq<Bytes32>, index: nat) returns (siblings: seq<Bytes32>)
    ensures siblings == if index < |leaves| then Path(h, leaves, index) else []
  {
    siblings := [];
    if leaves == [] || index >= |leaves| {
      return;
    }
    var idx, level := index, leaves;
    while |level| > 1
      invariant 0 <= idx < |level|
      invariant Path(h, leaves, index) == siblings + Path(h, level, idx)
      decreases |level|
    {
      var sibling := SiblingOf(level, idx);
      ghost var rest := Path(h, NextLevel(h, level), idx / 2);
      assert Path(h, level, idx) == [sibling] + rest;
      assert siblings + ([sibling] + rest) == (siblings + [sibling]) + rest;
      siblings := siblings + [sibling];
      level := BuildNextLevel(h, level);
      idx := idx / 2;
    }
  }

  /** `merkle_root_from_proof`; `verify_merkle_path` compares the same fold with a root. */
  method RootFromProof(h: Hash, leaf: Bytes32, siblings: seq<Bytes32>, leafIndex: nat) returns (acc: Bytes32)
    ensures acc == Fold(h, leaf, siblings, leafIndex)
  {
    var idx := leafIndex;
    acc := leaf;
    for k := 0 to |siblings|
      invariant Fold(h, leaf, siblings, leafIndex) == Fold(h, acc, siblings[k..], idx)
    {
      if idx % 2 == 0 {
        acc := h(NodeInput(acc, siblings[k]));
      } else {
        acc := h(NodeInput(siblings[k], acc));
      }
      idx := idx / 2;
    }
  }
}
