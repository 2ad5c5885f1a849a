/**
  The authority capability tree of src/kyriotes_csk2/capability_tree.rs: active
  leaves, the sorted list of revoked stamps, and the sorted-neighbour witness that
  a stamp is not revoked.
 */
module CapabilityTree {
  import opened Octets
  import opened Merkle
  import opened Model

  datatype InclusionProof = InclusionProof(
    leafHash: Bytes32,
    siblingHashes: seq<Bytes32>,
    leafIndex: nat)

  datatype Bound = Bound(stamp: Bytes32, proof: InclusionProof)

  datatype Witness = Witness(
    stamp: Bytes32,
    totalRevoked: nat,
    left: Option<Bound>,
    right: Option<Bound>)

  // ----- the order on stamps

  /** Byte-lexicographic order, as Rust compares arrays. */
  predicate Less(a: Bytes, b: Bytes)
    decreases |a|
  {
    if a == [] then b != []
    else b != [] && (a[0] < b[0] || (a[0] == b[0] && Less(a[1..], b[1..])))
  }

  lemma {:induction false} LessIsStrict(a: Bytes)
    ensures !Less(a, a)
    decreases |a|
  {
    if a != [] {
      LessIsStrict(a[1..]);
    }
  }

  lemma {:induction false} LessIsTransitive(a: Bytes, b: Bytes, c: Bytes)
    requires Less(a, b) && Less(b, c)
    ensures Less(a, c)
    decreases |a|
  {
    if a != [] && a[0] == b[0] == c[0] {
      LessIsTransitive(a[1..], b[1..], c[1..]);
    }
  }

  lemma {:induction false} LessIsTotal(a: Bytes, b: Bytes)
    ensures a == b || Less(a, b) || Less(b, a)
    decreases |a|
  {
    if a != [] && b != [] && a[0] == b[0] {
      LessIsTotal(a[1..], b[1..]);
      assert a == [a[0]] + a[1..] && b == [b[0]] + b[1..];
    }
  }

  lemma {:induction false} NothingAboveAllOnes(a: Bytes, b: Bytes)
    requires |a| == |b| && forall i :: 0 <= i < |a| ==> a[i] == 0xFF
    ensures !Less(a, b)
    decreases |a|
  {
    if a != [] {
      NothingAboveAllOnes(a[1..], b[1..]);
    }
  }

  predicate StrictlySorted(v: seq<Bytes32>) {
    forall i, j :: 0 <= i < j < |v| ==> Less(v[i], v[j])
  }

  // ----- the two sets as lists

  function IndexOf(leaves: seq<Bytes32>, leaf: Bytes32): (r: Option<nat>)
    ensures r.None? <==> leaf !in leaves
    ensures r.Some? ==> r.value < |leaves| && leaves[r.value] == leaf
  {
    if leaves == [] then None
    else if leaves[0] == leaf then Some(0)
    else
      match IndexOf(leaves[1..], leaf)
      case None => None
      case Some(i) => Some(i + 1)
  }

  function AddLeaf(leaves: seq<Bytes32>, leaf: Bytes32): seq<Bytes32> {
    if leaf in leaves then leaves else leaves + [leaf]
  }

  /** `partition_point`: the number of leading stamps below `stamp`. */
  function PartitionPoint(v: seq<Bytes32>, stamp: Bytes32): (pos: nat)
    ensures pos <= |v| && (pos < |v| ==> !Less(v[pos], stamp))
    ensures forall i :: 0 <= i < pos ==> Less(v[i], stamp)
  {
    if v == [] || !Less(v[0], stamp) then 0 else 1 + PartitionPoint(v[1..], stamp)
  }

  function InsertStamp(v: seq<Bytes32>, stamp: Bytes32): seq<Bytes32> {
    var pos := PartitionPoint(v, stamp);
    if pos < |v| && v[pos] == stamp then v else v[..pos] + [stamp] + v[pos..]
  }

  /** In a sorted list the partition point finds the stamp or the gap it belongs in. */
  lemma PartitionPointSplits(v: seq<Bytes32>, stamp: Bytes32)
    requires StrictlySorted(v)
    ensures var pos := PartitionPoint(v, stamp);
      && (stamp in v <==> pos < |v| && v[pos] == stamp)
      && (pos < |v| && v[pos] != stamp ==> forall i :: pos <= i < |v| ==> Less(stamp, v[i]))
      && (pos < |v| && v[pos] == stamp ==> forall i :: pos < i < |v| ==> Less(stamp, v[i]))
  {
    var pos := PartitionPoint(v, stamp);
    LessIsStrict(stamp);
    if pos < |v| {
      LessIsTotal(v[pos], stamp);
      forall i | pos < i < |v|
        ensures Less(stamp, v[i])
      {
        assert Less(v[pos], v[i]);
        if v[pos] != stamp {
          LessIsTransitive(stamp, v[pos], v[i]);
        }
      }
    }
  }

  lemma SpliceIsSorted(v: seq<Bytes32>, stamp: Bytes32, pos: nat)
    requires StrictlySorted(v) && pos <= |v|
    requires forall i :: 0 <= i < pos ==> Less(v[i], stamp)
    requires forall i :: pos <= i < |v| ==> Less(stamp, v[i])
    ensures StrictlySorted(v[..pos] + [stamp] + v[pos..])
    ensures forall s :: s in v[..pos] + [stamp] + v[pos..] <==> s in v || s == stamp
  {
    hide Less;
    var w := v[..pos] + [stamp] + v[pos..];
    forall i, j | 0 <= i < j < |w|
      ensures Less(w[i], w[j])
    {
      assert w[i] == if i < pos then v[i] else if i == pos then stamp else v[i - 1];
      assert w[j] == if j < pos then v[j] else if j == pos then stamp else v[j - 1];
    }
    assert v == v[..pos] + v[pos..];
  }

  /** Revoking inserts into a sorted set: order is kept and exactly `stamp` is added. */
  lemma InsertStampIsSortedSetInsert(v: seq<Bytes32>, stamp: Bytes32)
    requires StrictlySorted(v)
    ensures StrictlySorted(InsertStamp(v, stamp))
    ensures forall s :: s in InsertStamp(v, stamp) <==> s in v || s == stamp
    ensures |InsertStamp(v, stamp)| == |v| + (if stamp in v then 0 else 1)
  {
    hide Less, PartitionPoint;
    PartitionPointSplits(v, stamp);
    if stamp !in v {
      SpliceIsSorted(v, stamp, PartitionPoint(v, stamp));
    }
  }

  // ----- witnesses

  function StampProof(h: Hash, v: seq<Bytes32>, i: nat): InclusionProof
    requires i < |v|
  {
    InclusionProof(v[i], Path(h, v, i), i)
  }

  function MakeWitness(h: Hash, v: seq<Bytes32>, stamp: Bytes32): Result<Witness> {
    var pos := PartitionPoint(v, stamp);
    if pos < |v| && v[pos] == stamp then Err(InvalidCapability)
    else
      var left := if pos > 0 then Some(Bound(v[pos - 1], StampProof(h, v, pos - 1))) else None;
      var right := if pos < |v| then Some(Bound(v[pos], StampProof(h, v, pos))) else None;
      Ok(Witness(stamp, |v|, left, right))
  }

  predicate PathFolds(h: Hash, leaf: Bytes32, proof: InclusionProof, root: Bytes32) {
    Fold(h, leaf, proof.siblingHashes, proof.leafIndex) == root
  }

  function VerifyBound(h: Hash, bound: Option<Bound>, ordered: bool, root: Bytes32): Result<()> {
    if bound.None? then Ok(())
    else if bound.value.proof.leafHash != bound.value.stamp then Err(InvalidCapability)
    else if !ordered then Err(InvalidCapability)
    else if !PathFolds(h, bound.value.stamp, bound.value.proof, root) then Err(InvalidCapability)
    else Ok(())
  }

  predicate Positioned(left: Option<Bound>, right: Option<Bound>, count: nat) {
    match (left, right)
    case (None, None) => false
    case (Some(l), None) => count > 0 && l.proof.leafIndex == count - 1
    case (None, Some(r)) => r.proof.leafIndex == 0
    case (Some(l), Some(r)) => l.proof.leafIndex + 1 == r.proof.leafIndex
  }

  function VerifyNonRevocation(h: Hash, w: Witness, root: Bytes32, count: nat): Result<()> {
    if w.totalRevoked != count then Err(InvalidCapability)
    else if w.totalRevoked == 0 then
      if root != ZERO then Err(InvalidCapability)
      else if w.left.Some? || w.right.Some? then Err(InvalidCapability)
      else Ok(())
    else
      var _ :- VerifyBound(h, w.left, w.left.Some? && Less(w.left.value.stamp, w.stamp), root);
      var _ :- VerifyBound(h, w.right, w.right.Some? && Less(w.stamp, w.right.value.stamp), root);
      if Positioned(w.left, w.right, count) then Ok(()) else Err(InvalidCapability)
  }

  lemma EmptyRoot(h: Hash, v: seq<Bytes32>)
    ensures v == [] ==> Root(h, v) == ZERO
  {
  }

  lemma BoundVerifies(h: Hash, v: seq<Bytes32>, i: int)
    ensures VerifyBound(h, None, false, Root(h, v)).Ok?
    ensures 0 <= i < |v| ==>
      && VerifyBound(h, Some(Bound(v[i], StampProof(h, v, i))), true, Root(h, v)).Ok?
      && |Path(h, v, i)| == Depth(|v|)
  {
    if 0 <= i < |v| {
      PathRebuildsRoot(h, v, i);
    }
  }

  /** The stamps around the partition point, and what finding the stamp there means. */
  lemma NeighboursOf(v: seq<Bytes32>, stamp: Bytes32)
    requires StrictlySorted(v)
    ensures var pos := PartitionPoint(v, stamp);
      && (stamp in v <==> pos < |v| && v[pos] == stamp)
      && (pos > 0 ==> Less(v[pos - 1], stamp))
      && (pos < |v| && v[pos] != stamp ==> Less(stamp, v[pos]))
  {
    hide Less, StrictlySorted, PartitionPoint;
    PartitionPointSplits(v, stamp);
  }

  /** The generator answers exactly for the stamps that are not revoked, and its answers verify. */
  lemma WitnessComplete(h: Hash, v: seq<Bytes32>, stamp: Bytes32)
    requires StrictlySorted(v)
    ensures MakeWitness(h, v, stamp).Ok? <==> stamp !in v
    ensures stamp !in v ==>
      var w := MakeWitness(h, v, stamp).value;
      w.stamp == stamp && VerifyNonRevocation(h, w, Root(h, v), |v|).Ok? && HasDepth(w, |v|)
  {
    hide Less, PartitionPoint, Root, Path, Depth, VerifyBound, StrictlySorted;
    NeighboursOf(v, stamp);
    EmptyRoot(h, v);
    var pos: int := PartitionPoint(v, stamp);
    if stamp !in v {
      BoundVerifies(h, v, pos - 1);
      BoundVerifies(h, v, pos);
    }
  }

  /** The bound paths are as long as the tree is deep, which the verifier does not check. */
  predicate HasDepth(w: Witness, count: nat) {
    && (w.left.Some? ==> |w.left.value.proof.siblingHashes| == Depth(count))
    && (w.right.Some? ==> |w.right.value.proof.siblingHashes| == Depth(count))
  }

  ghost predicate BoundWithin(h: Hash, bound: Option<Bound>, Q: set<Bytes>) {
    bound.Some? ==>
      PathWithin(h, bound.value.stamp, bound.value.proof.siblingHashes, bound.value.proof.leafIndex, Q)
  }

  ghost predicate WitnessWithin(h: Hash, w: Witness, Q: set<Bytes>) {
    BoundWithin(h, w.left, Q) && BoundWithin(h, w.right, Q)
  }

  lemma {:induction false} LowBitsOfNext(i: nat, d: nat)
    ensures LowBits(i + 1, d) == LowBits(i, d) + 1 || (LowBits(i + 1, d) == 0 && LowBits(i, d) == Pow2(d) - 1)
  {
    if d > 0 && i % 2 == 1 {
      LowBitsOfNext(i / 2, d - 1);
      assert (i + 1) / 2 == i / 2 + 1;
    }
  }

  /** A sorted list has no element in the gap between neighbours, nor outside its ends. */
  lemma NothingInGap(v: seq<Bytes32>, stamp: Bytes32, k: nat)
    requires StrictlySorted(v) && k <= |v|
    requires k > 0 ==> Less(v[k - 1], stamp)
    requires k < |v| ==> Less(stamp, v[k])
    ensures stamp !in v
  {
    hide Less;
    LessIsStrict(stamp);
    if stamp in v {
      var i :| 0 <= i < |v| && v[i] == stamp;
      if i < k - 1 {
        LessIsTransitive(stamp, v[k - 1], stamp);
      } else if i > k {
        LessIsTransitive(stamp, v[k], stamp);
      }
    }
  }

  /** Where an accepted bound of full depth sits in the list. */
  lemma BoundPosition(h: Hash, Q: set<Bytes>, v: seq<Bytes32>, b: Bound) returns (p: nat)
    requires v != [] && Ideal(h, Q) && TreeWithin(h, v, Q) && BoundWithin(h, Some(b), Q)
    requires |b.proof.siblingHashes| == Depth(|v|) && PathFolds(h, b.stamp, b.proof, Root(h, v))
    ensures p == LowBits(b.proof.leafIndex, Depth(|v|)) && p < Pow2(Depth(|v|))
    ensures b.proof.leafIndex < |v| ==> p == b.proof.leafIndex
    ensures (p < |v| && v[p] == b.stamp) || (p == |v| && b.stamp == SENTINEL)
  {
    p := LowBits(b.proof.leafIndex, Depth(|v|));
    FoldFindsPosition(h, Q, v, b.stamp, b.proof.siblingHashes, b.proof.leafIndex);
    DepthHoldsAllLeaves(|v|);
    if b.proof.leafIndex < |v| {
      LowBitsOfSmall(b.proof.leafIndex, Depth(|v|));
    }
  }

  lemma BothBoundsSound(h: Hash, Q: set<Bytes>, v: seq<Bytes32>, left: Bound, right: Bound, stamp: Bytes32)
    requires v != [] && StrictlySorted(v)
    requires Ideal(h, Q) && TreeWithin(h, v, Q) && BoundWithin(h, Some(left), Q) && BoundWithin(h, Some(right), Q)
    requires |left.proof.siblingHashes| == Depth(|v|) && PathFolds(h, left.stamp, left.proof, Root(h, v))
    requires |right.proof.siblingHashes| == Depth(|v|) && PathFolds(h, right.stamp, right.proof, Root(h, v))
    requires Less(left.stamp, stamp) && Less(stamp, right.stamp)
    requires left.proof.leafIndex + 1 == right.proof.leafIndex
    ensures stamp !in v
  {
    hide Less, Root, Depth, TreeWithin, PathWithin, Fold, LowBits, Pow2, CollisionFree, AvoidsReserved, StrictlySorted;
    var l := BoundPosition(h, Q, v, left);
    var r := BoundPosition(h, Q, v, right);
    LowBitsOfNext(left.proof.leafIndex, Depth(|v|));
    NothingAboveAllOnes(SENTINEL, stamp);
    if r == l + 1 {
      NothingInGap(v, stamp, r);
    } else {
      NoWrapAround(v, l, left.stamp, right.stamp, stamp);
    }
  }

  /** The index cannot wrap around: that would put a later stamp below the first. */
  lemma NoWrapAround(v: seq<Bytes32>, l: nat, left: Bytes32, right: Bytes32, stamp: Bytes32)
    requires StrictlySorted(v) && l < |v| && v[l] == left && v[0] == right
    requires Less(left, stamp)
    ensures !Less(stamp, right)
  {
    hide Less;
    if Less(stamp, right) {
      LessIsTransitive(left, stamp, right);
      LessIsStrict(right);
      if l > 0 {
        LessIsTransitive(v[0], v[l], v[0]);
      }
    }
  }

  /** Acceptance under `count` proves absence when a lone left bound must sit at the last position or past it. */
  lemma SoundUnderCount(h: Hash, Q: set<Bytes>, v: seq<Bytes32>, w: Witness, count: nat)
    requires StrictlySorted(v) && Ideal(h, Q) && TreeWithin(h, v, Q) && WitnessWithin(h, w, Q)
    requires HasDepth(w, |v|) && VerifyNonRevocation(h, w, Root(h, v), count).Ok?
    requires count > 0 ==> LowBits(count - 1, Depth(|v|)) + 1 >= |v|
    requires count == 0 ==> v == [] || Root(h, v) != ZERO
    ensures w.stamp !in v
  {
    hide Less, Root, Depth, TreeWithin, PathWithin, Fold, LowBits;
    if v != [] {
      match (w.left, w.right) {
        case (Some(l), Some(r)) =>
          BothBoundsSound(h, Q, v, l, r, w.stamp);
        case (Some(l), None) =>
          var p := BoundPosition(h, Q, v, l);
          NothingAboveAllOnes(SENTINEL, w.stamp);
          NothingInGap(v, w.stamp, |v|);
        case (None, Some(r)) =>
          var p := BoundPosition(h, Q, v, r);
          NothingInGap(v, w.stamp, 0);
      }
    }
  }

  /**
    A witness that verifies against the tree's root and count, with bound paths of the
    tree's depth, proves that its stamp is not revoked. Its indices are unrestricted.
   */
  lemma NonRevocationSound(h: Hash, Q: set<Bytes>, v: seq<Bytes32>, w: Witness)
    requires StrictlySorted(v) && Ideal(h, Q) && TreeWithin(h, v, Q) && WitnessWithin(h, w, Q)
    requires HasDepth(w, |v|) && VerifyNonRevocation(h, w, Root(h, v), |v|).Ok?
    ensures w.stamp !in v
  {
    hide Root, Depth, TreeWithin, WitnessWithin, HasDepth, VerifyNonRevocation;
    DepthHoldsAllLeaves(|v|);
    if v != [] {
      LowBitsOfSmall(|v| - 1, Depth(|v|));
    }
    SoundUnderCount(h, Q, v, w, |v|);
  }

  lemma MadeWitnessWithin(h: Hash, Q: set<Bytes>, v: seq<Bytes32>, stamp: Bytes32)
    requires TreeWithin(h, v, Q) && MakeWitness(h, v, stamp).Ok?
    ensures WitnessWithin(h, MakeWitness(h, v, stamp).value, Q)
  {
    hide Less, PartitionPoint, TreeWithin, PathWithin, Path;
    var pos: int := PartitionPoint(v, stamp);
    if pos > 0 {
      PathWithinTree(h, v, pos - 1, Q);
    }
    if pos < |v| {
      PathWithinTree(h, v, pos, Q);
    }
  }

  /** The index agrees with set membership both ways: full-depth witnesses exist for exactly the absent stamps. */
  lemma WitnessesExistExactlyForAbsentStamps(h: Hash, Q: set<Bytes>, v: seq<Bytes32>, stamp: Bytes32)
    requires StrictlySorted(v) && Ideal(h, Q) && TreeWithin(h, v, Q)
    ensures stamp !in v <==> exists w: Witness ::
      && w.stamp == stamp && WitnessWithin(h, w, Q) && HasDepth(w, |v|)
      && VerifyNonRevocation(h, w, Root(h, v), |v|).Ok?
  {
    hide MakeWitness, VerifyNonRevocation, Root, TreeWithin, HasDepth, WitnessWithin;
    if stamp !in v {
      WitnessComplete(h, v, stamp);
      MadeWitnessWithin(h, Q, v, stamp);
      var w := MakeWitness(h, v, stamp).value;
      assert w.stamp == stamp && WitnessWithin(h, w, Q) && HasDepth(w, |v|);
    }
    forall w: Witness | WitnessWithin(h, w, Q) && HasDepth(w, |v|) && VerifyNonRevocation(h, w, Root(h, v), |v|).Ok?
      ensures w.stamp !in v
    {
      NonRevocationSound(h, Q, v, w);
    }
  }

  /** A witness whose single bound is the root itself, with an empty path. */
  function RootWitness(h: Hash, v: seq<Bytes32>, stamp: Bytes32): Witness
    requires v != []
  {
    var root := Root(h, v);
    if Less(root, stamp)
    then Witness(stamp, |v|, Some(Bound(root, InclusionProof(root, [], |v| - 1))), None)
    else Witness(stamp, |v|, None, Some(Bound(root, InclusionProof(root, [], 0))))
  }

  /**
    The depth hypothesis cannot be dropped: with two or more revoked stamps the verifier
    accepts a zero-length path for every stamp but the root, the revoked ones included.
   */
  lemma DepthIsNeeded(h: Hash, v: seq<Bytes32>, stamp: Bytes32)
    requires |v| >= 2 && stamp != Root(h, v)
    ensures RootWitness(h, v, stamp).stamp == stamp
    ensures VerifyNonRevocation(h, RootWitness(h, v, stamp), Root(h, v), |v|).Ok?
    ensures !HasDepth(RootWitness(h, v, stamp), |v|)
  {
    hide Less, Root;
    LessIsTotal(Root(h, v), stamp);
  }

  /** Every witness that the verifier accepts for this list, whatever its path lengths, is for an absent stamp. */
  ghost predicate SoundForAllWitnesses(h: Hash, Q: set<Bytes>, v: seq<Bytes32>) {
    forall w: Witness | WitnessWithin(h, w, Q) && VerifyNonRevocation(h, w, Root(h, v), |v|).Ok? :: w.stamp !in v
  }

  /** With at most one revoked stamp, every accepted bound has the tree's depth. */
  lemma ShortListForcesDepth(h: Hash, Q: set<Bytes>, v: seq<Bytes32>, w: Witness)
    requires |v| < 2 && Ideal(h, Q) && TreeWithin(h, v, Q) && AllLeafLike(h, Q, v)
    requires WitnessWithin(h, w, Q) && VerifyNonRevocation(h, w, Root(h, v), |v|).Ok?
    ensures HasDepth(w, |v|)
  {
    hide Less, Root, TreeWithin, PathWithin, Fold;
    if v != [] && !HasDepth(w, |v|) {
      var b := if w.left.Some? && |w.left.value.proof.siblingHashes| > 0 then w.left.value else w.right.value;
      LongPathIsRejected(h, Q, v, b.stamp, b.proof.siblingHashes, b.proof.leafIndex);
    }
  }

  /**
    Exactly when path lengths do not matter: for revoked stamps that are not nodes, the
    verifier is sound for witnesses of every shape if and only if at most one stamp is revoked.
   */
  lemma SoundWithoutDepthIff(h: Hash, Q: set<Bytes>, v: seq<Bytes32>)
    requires StrictlySorted(v) && Ideal(h, Q) && TreeWithin(h, v, Q) && AllLeafLike(h, Q, v)
    ensures SoundForAllWitnesses(h, Q, v) <==> |v| < 2
  {
    hide Less, Root, TreeWithin, HasDepth, VerifyNonRevocation;
    if |v| < 2 {
      forall w: Witness | WitnessWithin(h, w, Q) && VerifyNonRevocation(h, w, Root(h, v), |v|).Ok?
        ensures w.stamp !in v
      {
        ShortListForcesDepth(h, Q, v, w);
        NonRevocationSound(h, Q, v, w);
      }
    } else {
      ShortPathIsRejected(h, Q, v, v[0], [], 0);
      DepthIsNeeded(h, v, v[0]);
      var w := RootWitness(h, v, v[0]);
      assert WitnessWithin(h, w, Q) && w.stamp in v;
    }
  }

  // ----- soundness for every published count

  /** A fold of `d` siblings reads the `d` low bits of the index and nothing else. */
  lemma {:induction false} FoldReadsLowBits(
      h: Hash, Q: set<Bytes>, x: Bytes32, siblings: seq<Bytes32>, i: nat)
    ensures Fold(h, x, siblings, i) == Fold(h, x, siblings, LowBits(i, |siblings|))
    ensures PathWithin(h, x, siblings, i, Q) <==> PathWithin(h, x, siblings, LowBits(i, |siblings|), Q)
    decreases |siblings|
  {
    if siblings != [] {
      var p := LowBits(i, |siblings|);
      assert p % 2 == i % 2 && p / 2 == LowBits(i / 2, |siblings| - 1);
      FoldReadsLowBits(h, Q, h(StepInput(x, siblings[0], i)), siblings[1..], i / 2);
    }
  }

  /** Every full-depth witness that the verifier accepts under `count` is for an absent stamp. */
  ghost predicate SoundForCount(h: Hash, Q: set<Bytes>, v: seq<Bytes32>, count: nat) {
    forall w: Witness
      | WitnessWithin(h, w, Q) && HasDepth(w, |v|) && VerifyNonRevocation(h, w, Root(h, v), count).Ok? ::
      w.stamp !in v
  }

  /** The witness that a wrong count lets through: its single bound is not the last stamp. */
  function MiscountWitness(h: Hash, v: seq<Bytes32>, count: nat): Witness
    requires v != [] && (count > 0 ==> LowBits(count - 1, Depth(|v|)) + 1 < |v|)
  {
    if count == 0 then Witness(v[0], 0, None, None)
    else
      var p := LowBits(count - 1, Depth(|v|));
      Witness(v[p + 1], count, Some(Bound(v[p], InclusionProof(v[p], Path(h, v, p), count - 1))), None)
  }

  lemma MiscountIsAccepted(h: Hash, Q: set<Bytes>, v: seq<Bytes32>, count: nat)
    requires StrictlySorted(v) && TreeWithin(h, v, Q) && v != []
    requires count > 0 ==> LowBits(count - 1, Depth(|v|)) + 1 < |v|
    requires count == 0 ==> Root(h, v) == ZERO
    ensures var w := MiscountWitness(h, v, count);
      && w.stamp in v && WitnessWithin(h, w, Q) && HasDepth(w, |v|)
      && VerifyNonRevocation(h, w, Root(h, v), count).Ok?
  {
    hide Less, Root, Depth, TreeWithin, PathWithin, Fold, LowBits, Path;
    if count > 0 {
      var p := LowBits(count - 1, Depth(|v|));
      PathRebuildsRoot(h, v, p);
      PathWithinTree(h, v, p, Q);
      FoldReadsLowBits(h, Q, v[p], Path(h, v, p), count - 1);
    }
  }

  /**
    Exactly which published counts are safe for a list, full-depth witnesses given. A count
    of zero is safe unless it meets an empty-looking root. Any other is safe when the index
    before it, cut to the tree's depth, is that of the last stamp or of padding: the true
    count always, and no smaller positive one.
   */
  lemma CountIsSoundIff(h: Hash, Q: set<Bytes>, v: seq<Bytes32>, count: nat)
    requires StrictlySorted(v) && Ideal(h, Q) && TreeWithin(h, v, Q)
    ensures SoundForCount(h, Q, v, count) <==>
      if count == 0 then v == [] || Root(h, v) != ZERO else LowBits(count - 1, Depth(|v|)) + 1 >= |v|
    ensures 0 < count < |v| ==> !SoundForCount(h, Q, v, count)
  {
    hide Less, Root, Depth, TreeWithin, HasDepth, VerifyNonRevocation, LowBits, WitnessWithin;
    if 0 < count < |v| {
      DepthHoldsAllLeaves(|v|);
      LowBitsOfSmall(count - 1, Depth(|v|));
    }
    if v != [] && if count == 0 then Root(h, v) == ZERO else LowBits(count - 1, Depth(|v|)) + 1 < |v| {
      MiscountIsAccepted(h, Q, v, count);
      assert MiscountWitness(h, v, count).stamp in v;
    } else {
      forall w: Witness
        | WitnessWithin(h, w, Q) && HasDepth(w, |v|) && VerifyNonRevocation(h, w, Root(h, v), count).Ok?
        ensures w.stamp !in v
      {
        SoundUnderCount(h, Q, v, w, count);
      }
    }
  }

  // ----- inclusion in the active set

  function InclusionProofFor(h: Hash, leaves: seq<Bytes32>, cap: Capability): Option<InclusionProof> {
    var leaf := CapabilityLeaf(h, cap);
    match IndexOf(leaves, leaf)
    case None => None
    case Some(i) => Some(InclusionProof(leaf, Path(h, leaves, i), i))
  }

  function VerifyInclusion(h: Hash, cap: Capability, proof: InclusionProof, root: Bytes32): Result<()> {
    if proof.leafHash != CapabilityLeaf(h, cap) then Err(InvalidCapability)
    else if !PathFolds(h, proof.leafHash, proof, root) then Err(InvalidCapability)
    else Ok(())
  }

  /** `leaves` holds the leaf hashes of `caps`, in order. */
  ghost predicate LeavesOf(h: Hash, caps: seq<Capability>, leaves: seq<Bytes32>) {
    |leaves| == |caps| && forall i :: 0 <= i < |caps| ==> leaves[i] == CapabilityLeaf(h, caps[i])
  }

  /** Capabilities that can be told apart by their leaves, given the queries in `Q`. */
  ghost predicate Distinguishable(Q: set<Bytes>, cap: Capability) {
    EncodableCapability(cap) && CapabilityLeafInput(cap) in Q
  }

  /** Every added capability gets a proof that verifies, and nothing else gets a proof. */
  lemma InclusionComplete(h: Hash, leaves: seq<Bytes32>, cap: Capability)
    ensures InclusionProofFor(h, leaves, cap).Some? <==> CapabilityLeaf(h, cap) in leaves
    ensures InclusionProofFor(h, leaves, cap).Some? ==>
      VerifyInclusion(h, cap, InclusionProofFor(h, leaves, cap).value, Root(h, leaves)).Ok?
  {
    hide CapabilityLeaf, Root, Path, Fold, IndexOf;
    var r := IndexOf(leaves, CapabilityLeaf(h, cap));
    if r.Some? {
      PathRebuildsRoot(h, leaves, r.value);
    }
  }

  /**
    An accepted inclusion proof, of any length and with any index, means that the very
    capability was added, at the position in the index's low bits.
   */
  lemma InclusionSound(
      h: Hash, Q: set<Bytes>, caps: seq<Capability>, leaves: seq<Bytes32>, cap: Capability, proof: InclusionProof)
    requires LeavesOf(h, caps, leaves) && Ideal(h, Q) && TreeWithin(h, leaves, Q)
    requires PathWithin(h, proof.leafHash, proof.siblingHashes, proof.leafIndex, Q)
    requires Distinguishable(Q, cap) && forall c :: c in caps ==> Distinguishable(Q, c)
    requires VerifyInclusion(h, cap, proof, Root(h, leaves)).Ok?
    ensures |proof.siblingHashes| == Depth(|caps|)
    ensures LowBits(proof.leafIndex, Depth(|caps|)) < |caps|
    ensures caps[LowBits(proof.leafIndex, Depth(|caps|))] == cap
  {
    hide Distinguishable, CapabilityLeaf, CollisionFree, AvoidsReserved;
    hide Root, Depth, TreeWithin, PathWithin, Fold, LowBits, LeafLike, AllLeafLike;
    CapabilityLeafIsLeafLike(h, Q, cap);
    LeavesAreLeafLike(h, Q, caps, leaves);
    FoldFindsLeaf(h, Q, leaves, proof.leafHash, proof.siblingHashes, proof.leafIndex);
    LeafIdentifiesCapability(h, Q, caps[LowBits(proof.leafIndex, Depth(|caps|))], cap);
  }

  lemma LeafIdentifiesCapability(h: Hash, Q: set<Bytes>, a: Capability, b: Capability)
    requires CollisionFree(h, Q) && Distinguishable(Q, a) && Distinguishable(Q, b)
    requires CapabilityLeaf(h, a) == CapabilityLeaf(h, b)
    ensures a == b
  {
    hide CapabilityLeafInput;
    CapabilityLeafInputInjective(a, b);
  }

  lemma LeavesAreLeafLike(h: Hash, Q: set<Bytes>, caps: seq<Capability>, leaves: seq<Bytes32>)
    requires LeavesOf(h, caps, leaves) && Ideal(h, Q) && forall c :: c in caps ==> Distinguishable(Q, c)
    ensures AllLeafLike(h, Q, leaves)
  {
    hide Distinguishable, CapabilityLeaf, LeafLike;
    forall i | 0 <= i < |caps|
      ensures LeafLike(h, Q, leaves[i])
    {
      CapabilityLeafIsLeafLike(h, Q, caps[i]);
    }
  }

  lemma CapabilityLeafIsLeafLike(h: Hash, Q: set<Bytes>, cap: Capability)
    requires Ideal(h, Q) && Distinguishable(Q, cap)
    ensures LeafLike(h, Q, CapabilityLeaf(h, cap))
  {
    hide CapabilityLeafInput, LeafLike;
    CapabilityLeafIsNotANode(cap);
    TaggedIsLeafLike(h, Q, CapabilityLeafInput(cap));
  }

  // ----- the object

  class AuthorityCapabilityTree {
    const h: Hash
    var leafHashes: seq<Bytes32>
    var revokedStamps: seq<Bytes32>

    ghost predicate Valid()
      reads this
    {
      && StrictlySorted(revokedStamps)
      && forall i, j :: 0 <= i < j < |leafHashes| ==> leafHashes[i] != leafHashes[j]
    }

    constructor (h: Hash)
      ensures Valid() && this.h == h && leafHashes == [] && revokedStamps == []
    {
      this.h := h;
      leafHashes, revokedStamps := [], [];
    }

    method AddCapability(cap: Capability) returns (leaf: Bytes32)
      requires Valid()
      modifies this
      ensures Valid() && leaf == CapabilityLeaf(h, cap) && revokedStamps == old(revokedStamps)
      ensures leafHashes == AddLeaf(old(leafHashes), leaf)
    {
      hide Less, CapabilityLeaf;
      leaf := CapabilityLeaf(h, cap);
      if leaf !in leafHashes {
        leafHashes := leafHashes + [leaf];
      }
    }

    method RevokeStamp(stamp: Bytes32)
      requires Valid()
      modifies this
      ensures Valid() && leafHashes == old(leafHashes)
      ensures revokedStamps == InsertStamp(old(revokedStamps), stamp)
      ensures forall s :: s in revokedStamps <==> s in old(revokedStamps) || s == stamp
    {
      hide Less, PartitionPoint;
      InsertStampIsSortedSetInsert(revokedStamps, stamp);
      var pos := PartitionPoint(revokedStamps, stamp);
      if pos < |revokedStamps| && revokedStamps[pos] == stamp {
        return;
      }
      revokedStamps := revokedStamps[..pos] + [stamp] + revokedStamps[pos..];
    }

    method NonRevocationWitness(stamp: Bytes32) returns (r: Result<Witness>)
      requires Valid()
      ensures r == MakeWitness(h, revokedStamps, stamp)
      ensures r.Ok? <==> stamp !in revokedStamps
      ensures r.Ok? ==> VerifyNonRevocation(h, r.value, Root(h, revokedStamps), |revokedStamps|).Ok?
    {
      hide Less, PartitionPoint, Root, Path, VerifyNonRevocation;
      WitnessComplete(h, revokedStamps, stamp);
      var pos := PartitionPoint(revokedStamps, stamp);
      if pos < |revokedStamps| && revokedStamps[pos] == stamp {
        return Err(InvalidCapability);
      }
      var left, right := None, None;
      if pos > 0 {
        var siblings := ProofForIndex(h, revokedStamps, pos - 1);
        left := Some(Bound(revokedStamps[pos - 1], InclusionProof(revokedStamps[pos - 1], siblings, pos - 1)));
      }
      if pos < |revokedStamps| {
        var siblings := ProofForIndex(h, revokedStamps, pos);
        right := Some(Bound(revokedStamps[pos], InclusionProof(revokedStamps[pos], siblings, pos)));
      }
      r := Ok(Witness(stamp, |revokedStamps|, left, right));
    }

    method InclusionProofOf(cap: Capability) returns (r: Option<InclusionProof>)
      ensures r == InclusionProofFor(h, leafHashes, cap)
    {
      hide CapabilityLeaf, Path, IndexOf;
      var leaf := CapabilityLeaf(h, cap);
      match IndexOf(leafHashes, leaf) {
        case None =>
          r := None;
        case Some(i) =>
          var siblings := ProofForIndex(h, leafHashes, i);
          r := Some(InclusionProof(leaf, siblings, i));
      }
    }

    method AuthorityRoot() returns (root: Bytes32)
      ensures root == Root(h, leafHashes)
    {
      root := MerkleRoot(h, leafHashes);
    }

    method RevocationRoot() returns (root: Bytes32)
      ensures root == Root(h, revokedStamps)
    {
      root := MerkleRoot(h, revokedStamps);
    }
  }
}
