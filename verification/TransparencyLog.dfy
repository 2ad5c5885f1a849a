/**
  The in-memory transparency log of src/kyriotes_csk2/transparency.rs as a state
  machine over runs of commits and chain-hash registrations.
 */
module TransparencyLog {
  import opened Octets
  import opened Merkle
  import opened Model

  datatype Entry = Entry(authorityId: Bytes, epoch: u64, leafHash: Bytes32, chainHash: Bytes32)

  datatype StateCommit = StateCommit(state: AuthorityState, proof: TransparencyProof, chainHash: Bytes32)

  predicate HasKey(e: Entry, authorityId: Bytes, epoch: u64) {
    e.authorityId == authorityId && e.epoch == epoch
  }

  function FindIndex(entries: seq<Entry>, authorityId: Bytes, epoch: u64): (r: Option<nat>)
    ensures r.Some? ==> r.value < |entries| && HasKey(entries[r.value], authorityId, epoch)
    ensures r.None? ==> forall i :: 0 <= i < |entries| ==> !HasKey(entries[i], authorityId, epoch)
  {
    if entries == [] then None
    else if HasKey(entries[0], authorityId, epoch) then Some(0)
    else
      match FindIndex(entries[1..], authorityId, epoch)
      case None => None
      case Some(i) => Some(i + 1)
  }

  function Leaves(entries: seq<Entry>): (leaves: seq<Bytes32>)
    ensures |leaves| == |entries| && forall i :: 0 <= i < |entries| ==> leaves[i] == entries[i].leafHash
  {
    seq(|entries|, i requires 0 <= i < |entries| => entries[i].leafHash)
  }

  function CurrentRoot(h: Hash, entries: seq<Entry>): Bytes32 {
    Root(h, Leaves(entries))
  }

  function ProofAt(h: Hash, entries: seq<Entry>, i: nat): TransparencyProof
    requires i < |entries|
  {
    TransparencyProof(entries[i].leafHash, Path(h, Leaves(entries), i), i)
  }

  /** `bind_transparency_root_to_state` */
  function BindRoot(state: AuthorityState, root: Bytes32): AuthorityState {
    state.(transparencyRoot := root)
  }

  function CommitAt(h: Hash, entries: seq<Entry>, i: nat, state: AuthorityState): StateCommit
    requires i < |entries|
  {
    StateCommit(BindRoot(state, CurrentRoot(h, entries)), ProofAt(h, entries, i), ZERO)
  }

  /** `commit_state`: the new entries and what the caller gets, or a refusal that changes nothing. */
  function Commit(h: Hash, entries: seq<Entry>, state: AuthorityState): Result<(seq<Entry>, StateCommit)> {
    match FindIndex(entries, state.authorityId, state.epoch)
    case Some(i) =>
      if entries[i].leafHash != TransparencyLeaf(h, state) then Err(AuthorityMismatch)
      else Ok((entries, CommitAt(h, entries, i, state)))
    case None =>
      var grown := entries + [Entry(state.authorityId, state.epoch, TransparencyLeaf(h, state), ZERO)];
      Ok((grown, CommitAt(h, grown, |entries|, state)))
  }

  function StoreChainHash(entries: seq<Entry>, authorityId: Bytes, epoch: u64, chainHash: Bytes32): seq<Entry> {
    match FindIndex(entries, authorityId, epoch)
    case Some(i) => entries[i := entries[i].(chainHash := chainHash)]
    case None => entries
  }

  /** `chain_hash_for` */
  function ChainHashFor(entries: seq<Entry>, authorityId: Bytes, epoch: u64): Option<Bytes32> {
    match FindIndex(entries, authorityId, epoch)
    case Some(i) => Some(entries[i].chainHash)
    case None => None
  }

  function ProofForState(h: Hash, entries: seq<Entry>, state: AuthorityState): Result<TransparencyProof> {
    match FindIndex(entries, state.authorityId, state.epoch)
    case None => Err(AuthorityMismatch)
    case Some(i) =>
      if entries[i].leafHash != TransparencyLeaf(h, state) then Err(AuthorityMismatch)
      else Ok(ProofAt(h, entries, i))
  }

  function VerifyTransparencyProof(h: Hash, state: AuthorityState, proof: TransparencyProof): Result<()> {
    if proof.leafHash != TransparencyLeaf(h, state) then Err(AuthorityMismatch)
    else if Fold(h, proof.leafHash, proof.siblingHashes, proof.leafIndex) != state.transparencyRoot
    then Err(AuthorityMismatch)
    else Ok(())
  }

  // ----- runs

  datatype LogOp =
    | CommitOp(state: AuthorityState)
    | ChainOp(authorityId: Bytes, epoch: u64, chainHash: Bytes32)

  function Apply(h: Hash, entries: seq<Entry>, op: LogOp): seq<Entry> {
    match op
    case CommitOp(state) => (match Commit(h, entries, state) case Ok((grown, _)) => grown case Err(_) => entries)
    case ChainOp(id, epoch, chainHash) => StoreChainHash(entries, id, epoch, chainHash)
  }

  /** The log after a run that started empty; `Run(h, ops[..k])` is the log at moment `k`. */
  function Run(h: Hash, ops: seq<LogOp>): seq<Entry> {
    if ops == [] then [] else Apply(h, Run(h, ops[..|ops| - 1]), ops[|ops| - 1])
  }

  /** At most one entry per authority and epoch. */
  ghost predicate Keyed(entries: seq<Entry>) {
    forall i, j :: 0 <= i < j < |entries| ==> !HasKey(entries[j], entries[i].authorityId, entries[i].epoch)
  }

  /** `e` was made by some commit of the run. */
  ghost predicate FromCommit(h: Hash, ops: seq<LogOp>, e: Entry) {
    exists k :: 0 <= k < |ops| && ops[k].CommitOp? && Records(h, e, ops[k].state)
  }

  ghost predicate Records(h: Hash, e: Entry, state: AuthorityState) {
    HasKey(e, state.authorityId, state.epoch) && e.leafHash == TransparencyLeaf(h, state)
  }

  /** `later` has `earlier`'s entries at the same places; only chain hashes may differ. */
  ghost predicate Extends(earlier: seq<Entry>, later: seq<Entry>) {
    && |earlier| <= |later|
    && forall i :: 0 <= i < |earlier| ==>
      && HasKey(later[i], earlier[i].authorityId, earlier[i].epoch)
      && later[i].leafHash == earlier[i].leafHash
  }

  /** Every step keeps the entries it finds and never adds a second entry for a key. */
  lemma ApplyKeeps(h: Hash, entries: seq<Entry>, op: LogOp)
    requires Keyed(entries)
    ensures Keyed(Apply(h, entries, op)) && Extends(entries, Apply(h, entries, op))
  {
    hide FindIndex, TransparencyLeaf, Leaves, Root, Path;
    var after := Apply(h, entries, op);
    forall i, j | 0 <= i < j < |after|
      ensures !HasKey(after[j], after[i].authorityId, after[i].epoch)
    {
      assert i < |entries|;
      assert HasKey(after[i], entries[i].authorityId, entries[i].epoch);
    }
  }

  lemma ApplyRecords(h: Hash, ops: seq<LogOp>, op: LogOp, entries: seq<Entry>, i: nat)
    requires forall e :: e in entries ==> FromCommit(h, ops, e)
    requires i < |Apply(h, entries, op)|
    ensures FromCommit(h, ops + [op], Apply(h, entries, op)[i])
  {
    hide FindIndex, TransparencyLeaf, Leaves, Root, Path;
    var all, e := ops + [op], Apply(h, entries, op)[i];
    if i < |entries| {
      assert entries[i] in entries;
      var k :| 0 <= k < |ops| && ops[k].CommitOp? && Records(h, entries[i], ops[k].state);
      assert all[k] == ops[k] && Records(h, e, all[k].state);
    } else {
      assert all[|ops|] == op && Records(h, e, all[|ops|].state);
    }
  }

  /** What every run keeps. */
  lemma {:induction false} RunInvariant(h: Hash, ops: seq<LogOp>)
    ensures Keyed(Run(h, ops))
    ensures forall e :: e in Run(h, ops) ==> FromCommit(h, ops, e)
  {
    hide Apply, FromCommit, HasKey;
    if ops != [] {
      var before, op := ops[..|ops| - 1], ops[|ops| - 1];
      RunInvariant(h, before);
      assert ops == before + [op];
      ApplyKeeps(h, Run(h, before), op);
      forall e | e in Run(h, ops)
        ensures FromCommit(h, ops, e)
      {
        var i :| 0 <= i < |Run(h, ops)| && Run(h, ops)[i] == e;
        ApplyRecords(h, before, op, Run(h, before), i);
      }
    }
  }

  lemma ExtendsIsTransitive(a: seq<Entry>, b: seq<Entry>, c: seq<Entry>)
    requires Extends(a, b) && Extends(b, c)
    ensures Extends(a, c)
  {
  }

  /** Runs only append: the log at any moment is kept, in place, at every later moment. */
  lemma {:induction false} RunAppends(h: Hash, ops: seq<LogOp>, k: nat)
    requires k <= |ops|
    ensures Extends(Run(h, ops[..k]), Run(h, ops))
    decreases |ops|
  {
    hide Apply;
    if k == |ops| {
      assert ops[..k] == ops;
    } else {
      var before, op := ops[..|ops| - 1], ops[|ops| - 1];
      RunAppends(h, before, k);
      assert before[..k] == ops[..k];
      RunInvariant(h, before);
      ApplyKeeps(h, Run(h, before), op);
      ExtendsIsTransitive(Run(h, ops[..k]), Run(h, before), Run(h, ops));
    }
  }

  // ----- commits stay provable, conflicts stay rejected

  lemma KeyedLookup(entries: seq<Entry>, i: nat)
    requires Keyed(entries) && i < |entries|
    ensures FindIndex(entries, entries[i].authorityId, entries[i].epoch) == Some(i)
  {
    var r := FindIndex(entries, entries[i].authorityId, entries[i].epoch);
    assert r.Some? && HasKey(entries[r.value], entries[i].authorityId, entries[i].epoch);
    if r.value < i {
      assert HasKey(entries[i], entries[r.value].authorityId, entries[r.value].epoch);
    }
  }

  /** A recorded state has a proof that verifies against the log's current root. */
  lemma RecordedIsProvable(h: Hash, entries: seq<Entry>, i: nat, state: AuthorityState)
    requires Keyed(entries) && i < |entries| && Records(h, entries[i], state)
    ensures ProofForState(h, entries, state) == Ok(ProofAt(h, entries, i))
    ensures VerifyTransparencyProof(h, BindRoot(state, CurrentRoot(h, entries)), ProofAt(h, entries, i)).Ok?
    ensures Commit(h, entries, state) == Ok((entries, CommitAt(h, entries, i, state)))
  {
    hide FindIndex, TransparencyLeafInput, Leaves, Root, Path, Fold;
    KeyedLookup(entries, i);
    PathRebuildsRoot(h, Leaves(entries), i);
    BindRootKeepsLeaf(state, CurrentRoot(h, entries));
  }

  /** The leaf does not cover the transparency root, which is only known after the commit. */
  lemma BindRootKeepsLeaf(state: AuthorityState, root: Bytes32)
    ensures TransparencyLeafInput(BindRoot(state, root)) == TransparencyLeafInput(state)
  {
  }

  lemma CommitRecords(h: Hash, entries: seq<Entry>, state: AuthorityState) returns (i: nat)
    requires Commit(h, entries, state).Ok?
    ensures var grown := Commit(h, entries, state).value.0;
      i < |grown| && Records(h, grown[i], state) && Commit(h, entries, state).value.1 == CommitAt(h, grown, i, state)
  {
    hide FindIndex, TransparencyLeaf, CommitAt;
    var r := FindIndex(entries, state.authorityId, state.epoch);
    i := if r.Some? then r.value else |entries|;
  }

  /**
    A state committed at moment `k` is provable at every later moment, re-committing it
    changes nothing, and a different state for its key is refused from then on.
   */
  lemma CommittedStaysProvable(h: Hash, ops: seq<LogOp>, k: nat, state: AuthorityState)
    requires k < |ops| && ops[k] == CommitOp(state) && Commit(h, Run(h, ops[..k]), state).Ok?
    ensures ProofForState(h, Run(h, ops), state).Ok?
    ensures VerifyTransparencyProof(
      h, BindRoot(state, CurrentRoot(h, Run(h, ops))), ProofForState(h, Run(h, ops), state).value).Ok?
    ensures Commit(h, Run(h, ops), state).Ok? && Commit(h, Run(h, ops), state).value.0 == Run(h, ops)
    ensures forall other: AuthorityState |
      && other.authorityId == state.authorityId && other.epoch == state.epoch
      && TransparencyLeaf(h, other) != TransparencyLeaf(h, state)
      :: Commit(h, Run(h, ops), other).Err?
  {
    hide Run, TransparencyLeaf, ProofAt, CommitAt, VerifyTransparencyProof, CurrentRoot, Commit, ProofForState;
    var i := CommitRecords(h, Run(h, ops[..k]), state);
    MomentAfter(h, ops, k);
    RunAppends(h, ops, k + 1);
    RunInvariant(h, ops);
    RecordedIsProvable(h, Run(h, ops), i, state);
    forall other: AuthorityState |
      && other.authorityId == state.authorityId && other.epoch == state.epoch
      && TransparencyLeaf(h, other) != TransparencyLeaf(h, state)
      ensures Commit(h, Run(h, ops), other).Err?
    {
      ConflictIsRefused(h, Run(h, ops), i, state, other);
    }
  }

  lemma ConflictIsRefused(h: Hash, entries: seq<Entry>, i: nat, state: AuthorityState, other: AuthorityState)
    requires Keyed(entries) && i < |entries| && Records(h, entries[i], state)
    requires other.authorityId == state.authorityId && other.epoch == state.epoch
    requires TransparencyLeaf(h, other) != TransparencyLeaf(h, state)
    ensures Commit(h, entries, other).Err?
  {
    hide TransparencyLeaf, CommitAt, FindIndex, Keyed;
    KeyedLookup(entries, i);
  }

  lemma MomentAfter(h: Hash, ops: seq<LogOp>, k: nat)
    requires k < |ops|
    ensures Run(h, ops[..k + 1]) == Apply(h, Run(h, ops[..k]), ops[k])
  {
    hide Apply;
    assert ops[..k + 1][..k] == ops[..k];
  }

  /** A state has a proof exactly when it is recorded; otherwise the log answers with a mismatch. */
  lemma ProvableIff(h: Hash, entries: seq<Entry>, state: AuthorityState)
    requires Keyed(entries)
    ensures ProofForState(h, entries, state).Ok? <==> exists e :: e in entries && Records(h, e, state)
    ensures ProofForState(h, entries, state).Err? ==> ProofForState(h, entries, state).error == AuthorityMismatch
  {
    hide TransparencyLeaf, ProofAt, FindIndex;
    var r := FindIndex(entries, state.authorityId, state.epoch);
    if r.Some? && Records(h, entries[r.value], state) {
      assert entries[r.value] in entries;
    }
    if e :| e in entries && Records(h, e, state) {
      var i :| 0 <= i < |entries| && entries[i] == e;
      KeyedLookup(entries, i);
    }
  }

  // ----- chain hashes

  /**
    What one operation does to the chain hash of any key: registering for that key sets it
    if the key is committed, a first commit of the key clears it, and nothing else changes it.
   */
  lemma ChainHashAfter(h: Hash, entries: seq<Entry>, op: LogOp, authorityId: Bytes, epoch: u64)
    requires Keyed(entries)
    ensures ChainHashFor(Apply(h, entries, op), authorityId, epoch) ==
      var before := ChainHashFor(entries, authorityId, epoch);
      match op
      case CommitOp(state) =>
        if before.None? && state.authorityId == authorityId && state.epoch == epoch then Some(ZERO) else before
      case ChainOp(id, e, chainHash) =>
        if before.Some? && id == authorityId && e == epoch then Some(chainHash) else before
  {
    hide TransparencyLeaf, FindIndex, CommitAt;
    var after := Apply(h, entries, op);
    ApplyKeeps(h, entries, op);
    var r, s := FindIndex(entries, authorityId, epoch), FindIndex(after, authorityId, epoch);
    if r.Some? {
      KeyedLookup(after, r.value);
      if op.ChainOp? && FindIndex(entries, op.authorityId, op.epoch).Some? {
        KeyedLookup(after, FindIndex(entries, op.authorityId, op.epoch).value);
      }
    } else if |after| > |entries| {
      KeyedLookup(after, |entries|);
    }
  }

  /** The last hash registered for a key since it was committed, as the history of operations tells it. */
  function LastRegistered(ops: seq<LogOp>, authorityId: Bytes, epoch: u64): Option<Bytes32> {
    if ops == [] then None
    else
      var before := LastRegistered(ops[..|ops| - 1], authorityId, epoch);
      match ops[|ops| - 1]
      case CommitOp(state) =>
        if before.None? && state.authorityId == authorityId && state.epoch == epoch then Some(ZERO) else before
      case ChainOp(id, e, chainHash) =>
        if before.Some? && id == authorityId && e == epoch then Some(chainHash) else before
  }

  /** After every run, the log hands out for each key the last hash registered for it. */
  lemma {:induction false} ChainHashIsLastRegistered(h: Hash, ops: seq<LogOp>, authorityId: Bytes, epoch: u64)
    ensures ChainHashFor(Run(h, ops), authorityId, epoch) == LastRegistered(ops, authorityId, epoch)
  {
    hide Apply, FindIndex, ChainHashFor;
    if ops == [] {
      assert ChainHashFor([], authorityId, epoch) == None by {
        EmptyLogHasNoHash(authorityId, epoch);
      }
    } else {
      var n := |ops| - 1;
      ChainHashIsLastRegistered(h, ops[..n], authorityId, epoch);
      RunInvariant(h, ops[..n]);
      ChainHashAfter(h, Run(h, ops[..n]), ops[n], authorityId, epoch);
    }
  }

  lemma EmptyLogHasNoHash(authorityId: Bytes, epoch: u64)
    ensures ChainHashFor([], authorityId, epoch) == None
  {
  }

  // ----- non-equivocation

  ghost predicate Committable(Q: set<Bytes>, state: AuthorityState) {
    EncodableState(state) && TransparencyLeafInput(state) in Q
  }

  /** Everything a run commits can be told apart given the queries in `Q`. */
  ghost predicate RunWithin(Q: set<Bytes>, ops: seq<LogOp>) {
    forall k :: 0 <= k < |ops| && ops[k].CommitOp? ==> Committable(Q, ops[k].state)
  }

  lemma StateLeafIsLeafLike(h: Hash, Q: set<Bytes>, state: AuthorityState)
    requires Ideal(h, Q) && Committable(Q, state)
    ensures LeafLike(h, Q, TransparencyLeaf(h, state))
  {
    hide TransparencyLeafInput, LeafLike;
    TransparencyLeafIsNotANode(state);
    TaggedIsLeafLike(h, Q, TransparencyLeafInput(state));
  }

  lemma LogLeavesAreLeafLike(h: Hash, Q: set<Bytes>, ops: seq<LogOp>)
    requires Ideal(h, Q) && RunWithin(Q, ops)
    ensures AllLeafLike(h, Q, Leaves(Run(h, ops)))
  {
    hide Committable, TransparencyLeaf, LeafLike, Run, Leaves;
    RunInvariant(h, ops);
    var entries := Run(h, ops);
    forall i | 0 <= i < |entries|
      ensures LeafLike(h, Q, Leaves(entries)[i])
    {
      assert entries[i] in entries;
      var k :| 0 <= k < |ops| && ops[k].CommitOp? && Records(h, entries[i], ops[k].state);
      StateLeafIsLeafLike(h, Q, ops[k].state);
    }
  }

  lemma SameLeafSameCommitment(h: Hash, Q: set<Bytes>, a: AuthorityState, b: AuthorityState)
    requires CollisionFree(h, Q) && Committable(Q, a) && Committable(Q, b)
    requires TransparencyLeaf(h, a) == TransparencyLeaf(h, b)
    ensures SameCommitment(a, b)
  {
    hide TransparencyLeafInput;
    TransparencyLeafInputInjective(a, b);
  }

  ghost predicate ProofWithin(h: Hash, proof: TransparencyProof, Q: set<Bytes>) {
    PathWithin(h, proof.leafHash, proof.siblingHashes, proof.leafIndex, Q)
  }

  /** A state accepted against the root at the end of a run sits in the log under its own key. */
  lemma AcceptedIsLogged(h: Hash, Q: set<Bytes>, ops: seq<LogOp>, a: AuthorityState, proof: TransparencyProof)
      returns (i: nat)
    requires Ideal(h, Q) && RunWithin(Q, ops) && Committable(Q, a)
    requires TreeWithin(h, Leaves(Run(h, ops)), Q) && ProofWithin(h, proof, Q)
    requires a.transparencyRoot == CurrentRoot(h, Run(h, ops)) && VerifyTransparencyProof(h, a, proof).Ok?
    ensures i < |Run(h, ops)| && Records(h, Run(h, ops)[i], a)
  {
    hide Committable, TransparencyLeaf, LeafLike, AllLeafLike, Run, Leaves;
    hide CollisionFree, AvoidsReserved, TreeWithin, PathWithin, Fold, Root, LowBits, Depth;
    var entries := Run(h, ops);
    LogLeavesAreLeafLike(h, Q, ops);
    StateLeafIsLeafLike(h, Q, a);
    FoldFindsLeaf(h, Q, Leaves(entries), proof.leafHash, proof.siblingHashes, proof.leafIndex);
    i := LowBits(proof.leafIndex, |proof.siblingHashes|);
    RunInvariant(h, ops);
    assert entries[i] in entries;
    var k :| 0 <= k < |ops| && ops[k].CommitOp? && Records(h, entries[i], ops[k].state);
    SameLeafSameCommitment(h, Q, ops[k].state, a);
  }

  /**
    Non-equivocation: two states for one authority and epoch, accepted against roots that
    one log had at any two moments, agree on both roots and on the revocation count.
   */
  lemma NonEquivocation(
      h: Hash, Q: set<Bytes>, ops: seq<LogOp>, m: nat, n: nat,
      a: AuthorityState, proofA: TransparencyProof, b: AuthorityState, proofB: TransparencyProof)
    requires m <= |ops| && n <= |ops|
    requires Ideal(h, Q) && RunWithin(Q, ops) && Committable(Q, a) && Committable(Q, b)
    requires TreeWithin(h, Leaves(Run(h, ops[..m])), Q) && TreeWithin(h, Leaves(Run(h, ops[..n])), Q)
    requires ProofWithin(h, proofA, Q) && ProofWithin(h, proofB, Q)
    requires a.transparencyRoot == CurrentRoot(h, Run(h, ops[..m])) && VerifyTransparencyProof(h, a, proofA).Ok?
    requires b.transparencyRoot == CurrentRoot(h, Run(h, ops[..n])) && VerifyTransparencyProof(h, b, proofB).Ok?
    requires a.authorityId == b.authorityId && a.epoch == b.epoch
    ensures SameCommitment(a, b)
  {
    hide Committable, TransparencyLeaf, Run, Leaves, CurrentRoot, VerifyTransparencyProof;
    hide CollisionFree, AvoidsReserved, TreeWithin, ProofWithin;
    var i := AcceptedIsLogged(h, Q, ops[..m], a, proofA);
    var j := AcceptedIsLogged(h, Q, ops[..n], b, proofB);
    RunAppends(h, ops, m);
    RunAppends(h, ops, n);
    RunInvariant(h, ops);
    var entries := Run(h, ops);
    KeyedLookup(entries, i);
    KeyedLookup(entries, j);
    SameLeafSameCommitment(h, Q, a, b);
  }

  // ----- the object

  class InMemoryTransparencyLog {
    const h: Hash
    var entries: seq<Entry>

    ghost predicate Valid()
      reads this
    {
      Keyed(entries)
    }

    constructor (h: Hash)
      ensures Valid() && this.h == h && entries == []
    {
      this.h := h;
      entries := [];
    }

    method CommitState(state: AuthorityState) returns (r: Result<StateCommit>)
      requires Valid()
      modifies this
      ensures Valid() && Extends(old(entries), entries)
      ensures match Commit(h, old(entries), state)
        case Ok((grown, commit)) => r == Ok(commit) && entries == grown
        case Err(e) => r == Err(e) && entries == old(entries)
    {
      hide FindIndex, TransparencyLeaf, Leaves, Root, Path, Keyed, Extends;
      ApplyKeeps(h, entries, CommitOp(state));
      var leaf := TransparencyLeaf(h, state);
      var index;
      match FindIndex(entries, state.authorityId, state.epoch) {
        case Some(existing) =>
          if entries[existing].leafHash != leaf {
            return Err(AuthorityMismatch);
          }
          index := existing;
        case None =>
          entries := entries + [Entry(state.authorityId, state.epoch, leaf, ZERO)];
          index := |entries| - 1;
      }
      var leaves := Leaves(entries);
      var root := MerkleRoot(h, leaves);
      var siblings := ProofForIndex(h, leaves, index);
      r := Ok(StateCommit(BindRoot(state, root), TransparencyProof(leaves[index], siblings, index), ZERO));
    }

    method RegisterChainHash(authorityId: Bytes, epoch: u64, chainHash: Bytes32)
      requires Valid()
      modifies this
      ensures Valid() && Extends(old(entries), entries)
      ensures entries == StoreChainHash(old(entries), authorityId, epoch, chainHash)
    {
      hide FindIndex, Keyed, Extends;
      ApplyKeeps(h, entries, ChainOp(authorityId, epoch, chainHash));
      match FindIndex(entries, authorityId, epoch) {
        case Some(i) =>
          entries := entries[i := entries[i].(chainHash := chainHash)];
        case None =>
      }
    }
  }
}
