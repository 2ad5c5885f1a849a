/**
  The authority lifecycle of src/kyriotes_csk2/engine.rs: issue, revoke and rotate,
  each followed by a commit to the transparency log.

  The `*_and_commit` helpers change the tree before the log can refuse, so an
  operation returns the world it leaves behind beside its result.
 */
module Lifecycle {
  import opened Octets
  import opened Policy
  import opened Merkle
  import opened Model
  import opened Crypto
  import opened CapabilityTree
  import opened TransparencyLog
  import opened Authority
  import opened ChainHash

  datatype Tree = Tree(leaves: seq<Bytes32>, revoked: seq<Bytes32>)

  datatype World = World(tree: Tree, entries: seq<Entry>)

  datatype Outcome<T> = Outcome(world: World, result: Result<T>)

  // ----- operations

  function CommitTo(h: Hash, w: World, state: AuthorityState): Outcome<StateCommit> {
    match Commit(h, w.entries, state)
    case Ok((grown, commit)) => Outcome(w.(entries := grown), Ok(commit))
    case Err(e) => Outcome(w, Err(e))
  }

  function RevokeCapability(
      h: Hash, tree: Tree, cap: Capability, base: AuthorityState, revokeEpoch: u64): Result<(Tree, AuthorityState)>
  {
    if InclusionProofFor(h, tree.leaves, cap).None? then Err(InvalidCapability)
    else if Root(h, tree.leaves) != base.authorityRoot then Err(AuthorityMismatch)
    else if Root(h, tree.revoked) != base.revocationRoot then Err(AuthorityMismatch)
    else if revokeEpoch <= base.epoch then Err(AuthorityMismatch)
    else
      var revoked := InsertStamp(tree.revoked, CapabilityStamp(h, cap, base.authorityId));
      Ok((tree.(revoked := revoked),
          base.(epoch := revokeEpoch, transparencyRoot := ZERO, authorityRoot := Root(h, tree.leaves),
                revocationRoot := Root(h, revoked), revocationCount := |revoked|)))
  }

  function RevokeAndCommit(
      h: Hash, w: World, cap: Capability, base: AuthorityState, revokeEpoch: u64): Outcome<StateCommit>
  {
    match RevokeCapability(h, w.tree, cap, base, revokeEpoch)
    case Err(e) => Outcome(w, Err(e))
    case Ok((tree, state)) => CommitTo(h, w.(tree := tree), state)
  }

  function IssueCapability(
      c: Suite, tree: Tree, cap: Capability, epochSk: Bytes32, cert: EpochKeyCert): Result<(Tree, IssuanceProof)>
  {
    if cert.epoch < cap.epochStart || cert.epoch > cap.epochEnd then Err(InvalidCapability)
    else
      var leaf := CapabilityLeaf(c.hash, cap);
      var leaves := AddLeaf(tree.leaves, leaf);
      var sig := c.sign(epochSk, IssuanceMessage(leaf, Root(c.hash, leaves), cert.epoch));
      Ok((tree.(leaves := leaves), IssuanceProof(sig, cert)))
  }

  function IssueAndCommit(
      c: Suite, w: World, cap: Capability, epochSk: Bytes32, cert: EpochKeyCert,
      base: AuthorityState): Outcome<(IssuanceProof, StateCommit)>
  {
    if Root(c.hash, w.tree.leaves) != base.authorityRoot then Outcome(w, Err(AuthorityMismatch))
    else if Root(c.hash, w.tree.revoked) != base.revocationRoot then Outcome(w, Err(AuthorityMismatch))
    else
      match IssueCapability(c, w.tree, cap, epochSk, cert)
      case Err(e) => Outcome(w, Err(e))
      case Ok((tree, proof)) =>
        var out := CommitTo(
          c.hash, w.(tree := tree), base.(authorityRoot := Root(c.hash, tree.leaves), transparencyRoot := ZERO));
        match out.result
        case Ok(commit) => Outcome(out.world, Ok((proof, commit)))
        case Err(e) => Outcome(out.world, Err(e))
  }

  datatype Rotation = Rotation(
    epochCert: EpochKeyCert,
    epochPk: Bytes32,
    sigma: Bytes64,
    state: AuthorityState,
    transparencyProof: TransparencyProof,
    chainHash: Bytes32)

  /** What the caller of a rotation chooses; the fresh epoch key seed is an argument. */
  datatype RotateArgs = RotateArgs(
    rootSk: Bytes32,
    epochSk: Bytes32,
    newEpoch: u64,
    validityWindow: u64,
    prevEpochHash: Bytes32)

  const EPOCH_ROOT_TAG: string := "KYRIOTES-CSK2-EPOCH-ROOT-v2"

  function EpochRootMessage(state: AuthorityState): Bytes {
    Tagged(EPOCH_ROOT_TAG, EpochFields(state))
  }

  /** An epoch root signature names both roots, the transparency root, the epoch and the previous chain hash. */
  lemma EpochRootMessageBinds(a: AuthorityState, b: AuthorityState)
    requires EpochRootMessage(a) == EpochRootMessage(b)
    ensures SameEpochRoot(a, b)
  {
    hide EpochFields;
    EpochFieldsBind(a, b);
  }

  function RotatedState(base: AuthorityState, newEpoch: u64, prevEpochHash: Bytes32): AuthorityState {
    base.(transparencyRoot := ZERO, epoch := newEpoch, prevEpochHash := prevEpochHash)
  }

  function RotateEpoch(c: Suite, w: World, base: AuthorityState, args: RotateArgs): Outcome<Rotation> {
    var epochPk := c.signingPk(args.epochSk);
    var cert := IssueEpochCert(c, args.rootSk, epochPk, args.newEpoch, args.validityWindow);
    var out := CommitTo(c.hash, w, RotatedState(base, args.newEpoch, args.prevEpochHash));
    match out.result
    case Err(e) => Outcome(out.world, Err(e))
    case Ok(commit) =>
      var sigma := c.sign(args.epochSk, EpochRootMessage(commit.state));
      var chainHash := EntryHash(c.hash, args.prevEpochHash,
        Link(commit.state.authorityRoot, commit.state.revocationRoot, commit.state.epoch, epochPk, sigma));
      var entries := StoreChainHash(out.world.entries, commit.state.authorityId, commit.state.epoch, chainHash);
      Outcome(out.world.(entries := entries),
              Ok(Rotation(cert, epochPk, sigma, commit.state, commit.proof, chainHash)))
  }

  // ----- when change and commit are atomic

  /** The log holds no other state for the key of `state`. */
  predicate LogAdmits(h: Hash, entries: seq<Entry>, state: AuthorityState) {
    match FindIndex(entries, state.authorityId, state.epoch)
    case None => true
    case Some(i) => entries[i].leafHash == TransparencyLeaf(h, state)
  }

  /** The checks that issuing makes before it touches the tree. */
  predicate MayIssue(h: Hash, tree: Tree, cap: Capability, cert: EpochKeyCert, base: AuthorityState) {
    && Root(h, tree.leaves) == base.authorityRoot && Root(h, tree.revoked) == base.revocationRoot
    && cap.epochStart <= cert.epoch <= cap.epochEnd
  }

  /** The state that issuing offers to the log. */
  function IssuedState(h: Hash, tree: Tree, cap: Capability, base: AuthorityState): AuthorityState {
    base.(authorityRoot := Root(h, AddLeaf(tree.leaves, CapabilityLeaf(h, cap))), transparencyRoot := ZERO)
  }

  /** A failed issue leaves everything as it was exactly when it failed early, the log admits it, or nothing was new. */
  lemma IssueAndCommitIsAtomicIff(
      c: Suite, w: World, cap: Capability, epochSk: Bytes32, cert: EpochKeyCert, base: AuthorityState)
    ensures var out := IssueAndCommit(c, w, cap, epochSk, cert, base);
      (out.result.Err? ==> out.world == w) <==>
        || !MayIssue(c.hash, w.tree, cap, cert, base)
        || LogAdmits(c.hash, w.entries, IssuedState(c.hash, w.tree, cap, base))
        || CapabilityLeaf(c.hash, cap) in w.tree.leaves
  {
    hide Root, CapabilityLeaf, TransparencyLeaf, IssuanceMessage, CommitAt, FindIndex;
    assert |w.tree.leaves + [CapabilityLeaf(c.hash, cap)]| != |w.tree.leaves|;
  }

  /** The checks that revoking makes before it touches the tree. */
  predicate MayRevoke(h: Hash, tree: Tree, cap: Capability, base: AuthorityState, revokeEpoch: u64) {
    && CapabilityLeaf(h, cap) in tree.leaves && base.epoch < revokeEpoch
    && Root(h, tree.leaves) == base.authorityRoot && Root(h, tree.revoked) == base.revocationRoot
  }

  /** The state that revoking offers to the log. */
  function RevokedState(h: Hash, tree: Tree, cap: Capability, base: AuthorityState, revokeEpoch: u64): AuthorityState {
    var revoked := InsertStamp(tree.revoked, CapabilityStamp(h, cap, base.authorityId));
    base.(epoch := revokeEpoch, transparencyRoot := ZERO, revocationRoot := Root(h, revoked),
          revocationCount := |revoked|)
  }

  /** A failed revocation leaves everything as it was under the same condition on its checks, state and stamp. */
  lemma RevokeAndCommitIsAtomicIff(h: Hash, w: World, cap: Capability, base: AuthorityState, revokeEpoch: u64)
    requires StrictlySorted(w.tree.revoked)
    ensures var out := RevokeAndCommit(h, w, cap, base, revokeEpoch);
      (out.result.Err? ==> out.world == w) <==>
        || !MayRevoke(h, w.tree, cap, base, revokeEpoch)
        || LogAdmits(h, w.entries, RevokedState(h, w.tree, cap, base, revokeEpoch))
        || CapabilityStamp(h, cap, base.authorityId) in w.tree.revoked
  {
    hide Root, CapabilityStamp, CapabilityLeaf, TransparencyLeaf, CommitAt, FindIndex, InclusionProofFor;
    hide PartitionPoint, StrictlySorted;
    InclusionComplete(h, w.tree.leaves, cap);
    InsertStampIsSortedSetInsert(w.tree.revoked, CapabilityStamp(h, cap, base.authorityId));
    PartitionPointSplits(w.tree.revoked, CapabilityStamp(h, cap, base.authorityId));
  }

  /** The failing case: the log holds another state for this epoch, and the refused capability stays in the tree. */
  lemma RefusedIssueStaysInTree(
      c: Suite, cap: Capability, epochSk: Bytes32, cert: EpochKeyCert, base: AuthorityState, held: Bytes32)
    requires base.authorityRoot == base.revocationRoot == ZERO && cap.epochStart <= cert.epoch <= cap.epochEnd
    requires held != TransparencyLeaf(c.hash, IssuedState(c.hash, Tree([], []), cap, base))
    ensures var out := IssueAndCommit(
        c, World(Tree([], []), [Entry(base.authorityId, base.epoch, held, ZERO)]), cap, epochSk, cert, base);
      out.result.Err? && out.world.tree.leaves == [CapabilityLeaf(c.hash, cap)]
  {
    hide CapabilityLeaf, TransparencyLeaf, IssuanceMessage, CommitAt;
  }

  /** Which error each failing guard of issuing gives; a refusal by the log is a mismatch. */
  lemma IssueErrors(
      c: Suite, w: World, cap: Capability, epochSk: Bytes32, cert: EpochKeyCert, base: AuthorityState)
    ensures var r := IssueAndCommit(c, w, cap, epochSk, cert, base).result;
      var known :=
        Root(c.hash, w.tree.leaves) == base.authorityRoot && Root(c.hash, w.tree.revoked) == base.revocationRoot;
      && (r.Ok? <==>
          MayIssue(c.hash, w.tree, cap, cert, base)
          && LogAdmits(c.hash, w.entries, IssuedState(c.hash, w.tree, cap, base)))
      && (r.Err? ==>
          r.error ==
          if known && !(cap.epochStart <= cert.epoch <= cap.epochEnd) then InvalidCapability else AuthorityMismatch)
  {
    hide Root, CapabilityLeaf, TransparencyLeaf, IssuanceMessage, CommitAt, FindIndex;
  }

  /** Which error each failing guard of revoking gives; a refusal by the log is a mismatch. */
  lemma RevocationErrors(h: Hash, w: World, cap: Capability, base: AuthorityState, revokeEpoch: u64)
    ensures var r := RevokeAndCommit(h, w, cap, base, revokeEpoch).result;
      && (r.Ok? <==>
          MayRevoke(h, w.tree, cap, base, revokeEpoch)
          && LogAdmits(h, w.entries, RevokedState(h, w.tree, cap, base, revokeEpoch)))
      && (r.Err? ==>
          r.error == if CapabilityLeaf(h, cap) in w.tree.leaves then AuthorityMismatch else InvalidCapability)
  {
    hide Root, CapabilityStamp, CapabilityLeaf, TransparencyLeaf, CommitAt, FindIndex, InclusionProofFor, InsertStamp;
    InclusionComplete(h, w.tree.leaves, cap);
  }

  /** The same for revoking: the log refuses, and the stamp is in the revocation list nevertheless. */
  lemma RefusedRevocationStaysInTree(
      h: Hash, cap: Capability, base: AuthorityState, revokeEpoch: u64, held: Bytes32)
    requires base.authorityRoot == CapabilityLeaf(h, cap) && base.revocationRoot == ZERO && base.epoch < revokeEpoch
    requires held != TransparencyLeaf(h, RevokedState(h, Tree([CapabilityLeaf(h, cap)], []), cap, base, revokeEpoch))
    ensures var tree := Tree([CapabilityLeaf(h, cap)], []);
      var out := RevokeAndCommit(
        h, World(tree, [Entry(base.authorityId, revokeEpoch, held, ZERO)]), cap, base, revokeEpoch);
      out.result.Err? && out.world.tree.revoked == [CapabilityStamp(h, cap, base.authorityId)]
  {
    hide CapabilityLeaf, CapabilityStamp, TransparencyLeaf, CommitAt, InclusionProofFor;
    InclusionComplete(h, [CapabilityLeaf(h, cap)], cap);
  }

  // ----- revocation is permanent

  datatype Step =
    | IssueStep(cap: Capability, epochSk: Bytes32, cert: EpochKeyCert, base: AuthorityState)
    | RevokeStep(cap: Capability, base: AuthorityState, epoch: u64)
    | RotateStep(base: AuthorityState, args: RotateArgs)

  function Take(c: Suite, w: World, step: Step): World {
    match step
    case IssueStep(cap, epochSk, cert, base) => IssueAndCommit(c, w, cap, epochSk, cert, base).world
    case RevokeStep(cap, base, epoch) => RevokeAndCommit(c.hash, w, cap, base, epoch).world
    case RotateStep(base, args) => RotateEpoch(c, w, base, args).world
  }

  /** The world after a run of steps, each of which may fail and may be called with any base state. */
  function RunFrom(c: Suite, w: World, steps: seq<Step>): World
    decreases |steps|
  {
    if steps == [] then w else RunFrom(c, Take(c, w, steps[0]), steps[1..])
  }

  lemma StepKeepsRevocations(c: Suite, w: World, step: Step, stamp: Bytes32)
    requires StrictlySorted(w.tree.revoked)
    ensures StrictlySorted(Take(c, w, step).tree.revoked)
    ensures stamp in w.tree.revoked ==> stamp in Take(c, w, step).tree.revoked
  {
    hide Commit, StrictlySorted, InsertStamp, Root, AddLeaf, CapabilityStamp, CapabilityLeaf;
    hide IssuanceMessage, EpochRootMessage, CertMessage, EntryHash, StoreChainHash, InclusionProofFor;
    if step.RevokeStep? {
      InsertStampIsSortedSetInsert(w.tree.revoked, CapabilityStamp(c.hash, step.cap, step.base.authorityId));
    }
  }

  lemma {:induction false} RunKeepsRevocations(c: Suite, w: World, steps: seq<Step>, stamp: Bytes32)
    requires StrictlySorted(w.tree.revoked)
    ensures StrictlySorted(RunFrom(c, w, steps).tree.revoked)
    ensures stamp in w.tree.revoked ==> stamp in RunFrom(c, w, steps).tree.revoked
    decreases |steps|
  {
    hide Take, StrictlySorted;
    if steps != [] {
      StepKeepsRevocations(c, w, steps[0], stamp);
      RunKeepsRevocations(c, Take(c, w, steps[0]), steps[1..], stamp);
    }
  }

  /** A state that publishes `v` as its revocation list. */
  ghost predicate Publishes(h: Hash, state: AuthorityState, v: seq<Bytes32>) {
    state.revocationRoot == Root(h, v) && state.revocationCount == |v|
  }

  /**
    A successful revocation was of an active capability, adds exactly its stamp, and moves
    to a later epoch that publishes it.
   */
  lemma RevocationPublishes(h: Hash, tree: Tree, cap: Capability, base: AuthorityState, revokeEpoch: u64)
    requires StrictlySorted(tree.revoked) && RevokeCapability(h, tree, cap, base, revokeEpoch).Ok?
    ensures var (after, state) := RevokeCapability(h, tree, cap, base, revokeEpoch).value;
      && CapabilityLeaf(h, cap) in tree.leaves && after.leaves == tree.leaves
      && (forall s :: s in after.revoked <==> s in tree.revoked || s == CapabilityStamp(h, cap, base.authorityId))
      && Publishes(h, state, after.revoked) && state.authorityRoot == base.authorityRoot
      && base.epoch < state.epoch == revokeEpoch && state.authorityId == base.authorityId
      && state.prevEpochHash == base.prevEpochHash && state.rootPk == base.rootPk && state.transparencyRoot == ZERO
  {
    hide InsertStamp, StrictlySorted, Root, CapabilityStamp, CapabilityLeaf, InclusionProofFor;
    InsertStampIsSortedSetInsert(tree.revoked, CapabilityStamp(h, cap, base.authorityId));
    InclusionComplete(h, tree.leaves, cap);
  }

  /**
    Once revoked, always revoked: after a successful revocation and any later steps, no
    witness can be generated, and validation under every state that publishes the tree's
    revocation list rejects every proof whose bound paths have the tree's depth. Which
    steps publish that list is the subject of the next lemmas.
   */
  lemma RevocationIsPermanent(
      c: Suite, Q: set<Bytes>, w: World, cap: Capability, base: AuthorityState, revokeEpoch: u64, steps: seq<Step>,
      proof: CapabilityProof, state: AuthorityState, req: OpenRequest)
    requires StrictlySorted(w.tree.revoked) && RevokeCapability(c.hash, w.tree, cap, base, revokeEpoch).Ok?
    ensures var v := RunFrom(c, RevokeAndCommit(c.hash, w, cap, base, revokeEpoch).world, steps).tree.revoked;
      && MakeWitness(c.hash, v, CapabilityStamp(c.hash, cap, base.authorityId)).Err?
      && (state.authorityId == base.authorityId && Publishes(c.hash, state, v)
          && Ideal(c.hash, Q) && TreeWithin(c.hash, v, Q) && WitnessWithin(c.hash, proof.nonRevocation, Q)
          && HasDepth(proof.nonRevocation, |v|)
          ==> ValidateCapability(c, cap, proof, state, req).Err?)
  {
    hide StrictlySorted, InsertStamp, Commit, Root, TreeWithin, WitnessWithin, HasDepth, Ideal, CapabilityStamp;
    hide VerifyNonRevocation, VerifyInclusion, VerifyIssuance, MakeWitness, InclusionProofFor, RunFrom, Grants;
    var stamp := CapabilityStamp(c.hash, cap, base.authorityId);
    var after := RevokeAndCommit(c.hash, w, cap, base, revokeEpoch).world;
    InsertStampIsSortedSetInsert(w.tree.revoked, stamp);
    RunKeepsRevocations(c, after, steps, stamp);
    var v := RunFrom(c, after, steps).tree.revoked;
    WitnessComplete(c.hash, v, stamp);
    if Publishes(c.hash, state, v) && Ideal(c.hash, Q) && TreeWithin(c.hash, v, Q)
      && WitnessWithin(c.hash, proof.nonRevocation, Q) && HasDepth(proof.nonRevocation, |v|)
      && VerifyNonRevocation(c.hash, proof.nonRevocation, Root(c.hash, v), |v|).Ok?
    {
      NonRevocationSound(c.hash, Q, v, proof.nonRevocation);
    }
  }

  /** The state that a successful step publishes. */
  function Published(c: Suite, w: World, step: Step): Result<AuthorityState> {
    match step
    case IssueStep(cap, epochSk, cert, base) =>
      var issued :- IssueAndCommit(c, w, cap, epochSk, cert, base).result;
      Ok(issued.1.state)
    case RevokeStep(cap, base, epoch) =>
      var commit :- RevokeAndCommit(c.hash, w, cap, base, epoch).result;
      Ok(commit.state)
    case RotateStep(base, args) =>
      var rotation :- RotateEpoch(c, w, base, args).result;
      Ok(rotation.state)
  }

  /** What the code leaves to the caller: a rotation's base publishes the tree's list, and an issue's base its count. */
  ghost predicate Careful(h: Hash, w: World, step: Step) {
    match step
    case IssueStep(_, _, _, base) => base.revocationCount == |w.tree.revoked|
    case RevokeStep(_, _, _) => true
    case RotateStep(base, _) => Publishes(h, base, w.tree.revoked)
  }

  /** A careful step that succeeds publishes the revocation list it leaves behind. */
  lemma CarefulStepPublishes(c: Suite, w: World, step: Step)
    requires Careful(c.hash, w, step) && Published(c, w, step).Ok?
    ensures Publishes(c.hash, Published(c, w, step).value, Take(c, w, step).tree.revoked)
    ensures Published(c, w, step).value.authorityId == step.base.authorityId
  {
    hide Root, InsertStamp, FindIndex, TransparencyLeaf, ProofAt, CurrentRoot, StoreChainHash, EntryHash, AddLeaf;
    hide CapabilityStamp, CapabilityLeaf, IssuanceMessage, EpochRootMessage, CertMessage, InclusionProofFor;
  }

  /**
    After a revocation and any run at all, whatever its bases were, the next careful step of
    that authority publishes a state under which no full-depth proof validates.
   */
  lemma CarefulStepRejectsRevoked(
      c: Suite, Q: set<Bytes>, w: World, cap: Capability, base: AuthorityState, revokeEpoch: u64, steps: seq<Step>,
      step: Step, proof: CapabilityProof, req: OpenRequest)
    requires StrictlySorted(w.tree.revoked) && RevokeCapability(c.hash, w.tree, cap, base, revokeEpoch).Ok?
    requires var before := RunFrom(c, RevokeAndCommit(c.hash, w, cap, base, revokeEpoch).world, steps);
      var v := Take(c, before, step).tree.revoked;
      && Careful(c.hash, before, step) && Published(c, before, step).Ok? && step.base.authorityId == base.authorityId
      && Ideal(c.hash, Q) && TreeWithin(c.hash, v, Q) && WitnessWithin(c.hash, proof.nonRevocation, Q)
      && HasDepth(proof.nonRevocation, |v|)
    ensures var before := RunFrom(c, RevokeAndCommit(c.hash, w, cap, base, revokeEpoch).world, steps);
      ValidateCapability(c, cap, proof, Published(c, before, step).value, req).Err?
  {
    hide RevokeAndCommit, RevokeCapability, Take, Published, Careful, StrictlySorted, Ideal, TreeWithin, WitnessWithin;
    hide HasDepth, ValidateCapability, CapabilityStamp, Publishes, MakeWitness;
    var start := RevokeAndCommit(c.hash, w, cap, base, revokeEpoch).world;
    var before := RunFrom(c, start, steps);
    RunExtends(c, start, steps, step);
    CarefulStepPublishes(c, before, step);
    RevocationIsPermanent(
      c, Q, w, cap, base, revokeEpoch, steps + [step], proof, Published(c, before, step).value, req);
  }

  lemma {:induction false} RunExtends(c: Suite, w: World, steps: seq<Step>, step: Step)
    ensures RunFrom(c, w, steps + [step]) == Take(c, RunFrom(c, w, steps), step)
    decreases |steps|
  {
    hide Take;
    if steps == [] {
      assert steps + [step] == [step];
    } else {
      assert (steps + [step])[1..] == steps[1..] + [step];
      RunExtends(c, Take(c, w, steps[0]), steps[1..], step);
    }
  }

  /**
    Validation is sound: what it accepts under published roots was added to the tree, is
    not revoked, is well formed, was signed by a certified epoch key and grants the request.
   */
  lemma ValidationIsSound(
      c: Suite, Q: set<Bytes>, caps: seq<Capability>, leaves: seq<Bytes32>, revoked: seq<Bytes32>,
      cap: Capability, proof: CapabilityProof, state: AuthorityState, req: OpenRequest)
    requires LeavesOf(c.hash, caps, leaves) && Ideal(c.hash, Q) && TreeWithin(c.hash, leaves, Q)
    requires StrictlySorted(revoked) && TreeWithin(c.hash, revoked, Q)
    requires PathWithin(c.hash, proof.inclusion.leafHash, proof.inclusion.siblingHashes, proof.inclusion.leafIndex, Q)
    requires WitnessWithin(c.hash, proof.nonRevocation, Q) && HasDepth(proof.nonRevocation, |revoked|)
    requires Distinguishable(Q, cap) && forall k :: k in caps ==> Distinguishable(Q, k)
    requires state.authorityRoot == Root(c.hash, leaves) && Publishes(c.hash, state, revoked)
    requires ValidateCapability(c, cap, proof, state, req).Ok?
    ensures cap in caps && CapabilityStamp(c.hash, cap, state.authorityId) !in revoked
    ensures ParentStampWellFormed(cap) && Grants(cap, state, req)
    ensures CoversBits(cap.rights.bits, req.requiredRights.bits, 16)
    ensures var issuance := proof.issuance;
      && VerifyEpochCert(c, state.rootPk, issuance.epochCert).Ok? && CoversOwnEpoch(issuance.epochCert)
      && cap.epochStart <= issuance.epochCert.epoch <= cap.epochEnd
      && c.verifySig(issuance.epochCert.epochPk,
                     IssuanceMessage(CapabilityLeaf(c.hash, cap), state.authorityRoot, issuance.epochCert.epoch),
                     issuance.sig)
  {
    hide StrictlySorted, Root, TreeWithin, WitnessWithin, PathWithin, HasDepth, CollisionFree, AvoidsReserved;
    hide Distinguishable, CapabilityStamp, CapabilityLeaf, IssuanceMessage, CertMessage, Grants, LeavesOf;
    hide VerifyNonRevocation, VerifyInclusion, LowBits, Depth, CoversBits;
    GrantsIff(cap, state, req);
    InclusionSound(c.hash, Q, caps, leaves, cap, proof.inclusion);
    NonRevocationSound(c.hash, Q, revoked, proof.nonRevocation);
  }

  // ----- an issued capability stays usable

  /** A world together with the state it last published. */
  datatype Live = Live(world: World, state: AuthorityState)

  datatype Upkeep =
    | Rotate(args: RotateArgs)
    | RevokeOther(cap: Capability, epoch: u64)

  /** One successful rotation, or revocation of another capability, on top of the current state. */
  function Maintain(c: Suite, live: Live, u: Upkeep): Result<Live> {
    match u
    case Rotate(args) =>
      var out := RotateEpoch(c, live.world, live.state, args);
      var rotation :- out.result;
      Ok(Live(out.world, rotation.state))
    case RevokeOther(cap, epoch) =>
      var out := RevokeAndCommit(c.hash, live.world, cap, live.state, epoch);
      var commit :- out.result;
      Ok(Live(out.world, commit.state))
  }

  function MaintainAll(c: Suite, live: Live, us: seq<Upkeep>): Result<Live>
    decreases |us|
  {
    if us == [] then Ok(live)
    else
      var next :- Maintain(c, live, us[0]);
      MaintainAll(c, next, us[1..])
  }

  /** The published state describes the tree. */
  ghost predicate Consistent(h: Hash, live: Live) {
    && StrictlySorted(live.world.tree.revoked)
    && live.state.authorityRoot == Root(h, live.world.tree.leaves)
    && Publishes(h, live.state, live.world.tree.revoked)
  }

  /** `cap` is active and not revoked in what is published. */
  ghost predicate Listed(h: Hash, live: Live, cap: Capability) {
    && Consistent(h, live)
    && ParentStampWellFormed(cap)
    && CapabilityLeaf(h, cap) in live.world.tree.leaves
    && CapabilityStamp(h, cap, live.state.authorityId) !in live.world.tree.revoked
  }

  /** `cap` is listed, and `issuance` proves it for the published root. */
  ghost predicate Holds(c: Suite, live: Live, cap: Capability, issuance: IssuanceProof) {
    && Listed(c.hash, live, cap)
    && VerifyIssuance(c, cap, live.state.authorityRoot, issuance.epochCert.epoch, issuance, live.state.rootPk).Ok?
  }

  /** The proof a holder assembles from fresh tree proofs and the original issuance. */
  function FreshProof(c: Suite, live: Live, cap: Capability, issuance: IssuanceProof): (r: Option<CapabilityProof>) {
    match (InclusionProofFor(c.hash, live.world.tree.leaves, cap),
           MakeWitness(c.hash, live.world.tree.revoked, CapabilityStamp(c.hash, cap, live.state.authorityId)))
    case (Some(inclusion), Ok(absence)) => Some(CapabilityProof(inclusion, absence, issuance))
    case _ => None
  }

  /** `u` does not revoke the capability whose stamp is `stamp`. */
  ghost predicate Spares(h: Hash, authorityId: Bytes, u: Upkeep, stamp: Bytes32) {
    u.RevokeOther? ==> CapabilityStamp(h, u.cap, authorityId) != stamp
  }

  predicate SameAuthority(a: AuthorityState, b: AuthorityState) {
    a.authorityId == b.authorityId && a.rootPk == b.rootPk
  }

  /** A listed capability validates exactly when it grants the request and its issuance verifies for the root. */
  lemma ListedCapabilityValidates(c: Suite, live: Live, cap: Capability, issuance: IssuanceProof, req: OpenRequest)
    requires Listed(c.hash, live, cap)
    ensures FreshProof(c, live, cap, issuance).Some?
    ensures ValidateCapability(c, cap, FreshProof(c, live, cap, issuance).value, live.state, req).Ok? <==>
      && Grants(cap, live.state, req)
      && VerifyIssuance(c, cap, live.state.authorityRoot, issuance.epochCert.epoch, issuance, live.state.rootPk).Ok?
  {
    hide Root, StrictlySorted, CapabilityLeaf, CapabilityStamp, Grants, ParentStampWellFormed;
    hide InclusionProofFor, MakeWitness, VerifyInclusion, VerifyNonRevocation, VerifyIssuance;
    var tree := live.world.tree;
    InclusionComplete(c.hash, tree.leaves, cap);
    WitnessComplete(c.hash, tree.revoked, CapabilityStamp(c.hash, cap, live.state.authorityId));
  }

  /** A held capability validates for a request exactly when it grants the request. */
  lemma HeldCapabilityValidates(c: Suite, live: Live, cap: Capability, issuance: IssuanceProof, req: OpenRequest)
    requires Holds(c, live, cap, issuance)
    ensures FreshProof(c, live, cap, issuance).Some?
    ensures ValidateCapability(c, cap, FreshProof(c, live, cap, issuance).value, live.state, req).Ok?
      <==> Grants(cap, live.state, req)
    ensures ValidateCapability(c, cap, FreshProof(c, live, cap, issuance).value, live.state, req).Ok? ==>
      CoversBits(cap.rights.bits, req.requiredRights.bits, 16)
  {
    hide Listed, FreshProof, ValidateCapability, Grants, VerifyIssuance, CoversBits;
    ListedCapabilityValidates(c, live, cap, issuance, req);
    GrantsIff(cap, live.state, req);
  }

  lemma UpkeepKeepsListed(c: Suite, live: Live, u: Upkeep, cap: Capability)
    requires Listed(c.hash, live, cap) && Maintain(c, live, u).Ok?
    requires Spares(c.hash, live.state.authorityId, u, CapabilityStamp(c.hash, cap, live.state.authorityId))
    ensures var after := Maintain(c, live, u).value;
      && Listed(c.hash, after, cap) && after.world.tree.leaves == live.world.tree.leaves
      && SameAuthority(after.state, live.state) && after.state.authorityRoot == live.state.authorityRoot
  {
    hide Root, StrictlySorted, CapabilityLeaf, CapabilityStamp, InsertStamp, StoreChainHash, EntryHash;
    hide VerifyIssuance, ParentStampWellFormed, FindIndex, TransparencyLeaf, ProofAt, InclusionProofFor;
    hide EpochRootMessage, CertMessage;
    if u.RevokeOther? {
      InsertStampIsSortedSetInsert(live.world.tree.revoked, CapabilityStamp(c.hash, u.cap, live.state.authorityId));
    }
  }

  lemma UpkeepKeepsHeld(c: Suite, live: Live, u: Upkeep, cap: Capability, issuance: IssuanceProof)
    requires Holds(c, live, cap, issuance) && Maintain(c, live, u).Ok?
    requires Spares(c.hash, live.state.authorityId, u, CapabilityStamp(c.hash, cap, live.state.authorityId))
    ensures Holds(c, Maintain(c, live, u).value, cap, issuance)
    ensures Maintain(c, live, u).value.state.authorityId == live.state.authorityId
  {
    hide Listed, Maintain, Spares, CapabilityStamp, VerifyIssuance;
    UpkeepKeepsListed(c, live, u, cap);
  }

  /** What the issuer must bring: a certificate of the authority's root over its epoch key. */
  ghost predicate CanIssue(c: Suite, rootPk: Bytes32, epochSk: Bytes32, cert: EpochKeyCert) {
    VerifyEpochCert(c, rootPk, cert).Ok? && cert.epochPk == c.signingPk(epochSk)
  }

  /** A fresh issuance proof verifies exactly when its certificate covers its own epoch. */
  lemma IssuanceVerifies(c: Suite, tree: Tree, cap: Capability, epochSk: Bytes32, cert: EpochKeyCert, rootPk: Bytes32)
    requires SignaturesVerify(c) && CanIssue(c, rootPk, epochSk, cert)
    requires IssueCapability(c, tree, cap, epochSk, cert).Ok?
    ensures var (after, proof) := IssueCapability(c, tree, cap, epochSk, cert).value;
      VerifyIssuance(c, cap, Root(c.hash, after.leaves), cert.epoch, proof, rootPk).Ok? <==> CoversOwnEpoch(cert)
  {
    hide IssuanceMessage, CapabilityLeaf, Root, VerifyEpochCert;
  }

  lemma IssueEstablishesHeld(
      c: Suite, live: Live, cap: Capability, epochSk: Bytes32, cert: EpochKeyCert)
    requires SignaturesVerify(c) && CanIssue(c, live.state.rootPk, epochSk, cert) && CoversOwnEpoch(cert)
    requires Consistent(c.hash, live) && ParentStampWellFormed(cap)
    requires CapabilityStamp(c.hash, cap, live.state.authorityId) !in live.world.tree.revoked
    requires IssueAndCommit(c, live.world, cap, epochSk, cert, live.state).result.Ok?
    ensures var out := IssueAndCommit(c, live.world, cap, epochSk, cert, live.state);
      Holds(c, Live(out.world, out.result.value.1.state), cap, out.result.value.0)
  {
    hide Root, StrictlySorted, CapabilityLeaf, CapabilityStamp, VerifyIssuance, ParentStampWellFormed;
    hide FindIndex, TransparencyLeaf, ProofAt, IssuanceMessage, CanIssue, CoversOwnEpoch;
    IssuanceVerifies(c, live.world.tree, cap, epochSk, cert, live.state.rootPk);
  }

  lemma {:induction false} MaintenanceKeepsHeld(
      c: Suite, live: Live, us: seq<Upkeep>, cap: Capability, issuance: IssuanceProof)
    requires Holds(c, live, cap, issuance) && MaintainAll(c, live, us).Ok?
    requires forall u :: u in us ==>
      Spares(c.hash, live.state.authorityId, u, CapabilityStamp(c.hash, cap, live.state.authorityId))
    ensures Holds(c, MaintainAll(c, live, us).value, cap, issuance)
    decreases |us|
  {
    hide Maintain, Holds, CapabilityStamp;
    if us != [] {
      assert us[0] in us;
      UpkeepKeepsHeld(c, live, us[0], cap, issuance);
      MaintenanceKeepsHeld(c, Maintain(c, live, us[0]).value, us[1..], cap, issuance);
    }
  }

  /**
    Lifecycle completeness: after issuing into a consistent world, any successful sequence
    of rotations and of revocations of other capabilities leaves the original issuance
    proof, with fresh tree proofs, valid for every request the capability grants.
   */
  lemma LifecycleCompleteness(
      c: Suite, live: Live, cap: Capability, epochSk: Bytes32, cert: EpochKeyCert, us: seq<Upkeep>, req: OpenRequest)
    requires SignaturesVerify(c) && CanIssue(c, live.state.rootPk, epochSk, cert) && CoversOwnEpoch(cert)
    requires Consistent(c.hash, live) && ParentStampWellFormed(cap)
    requires CapabilityStamp(c.hash, cap, live.state.authorityId) !in live.world.tree.revoked
    requires IssueAndCommit(c, live.world, cap, epochSk, cert, live.state).result.Ok?
    requires var out := IssueAndCommit(c, live.world, cap, epochSk, cert, live.state);
      MaintainAll(c, Live(out.world, out.result.value.1.state), us).Ok?
    requires forall u :: u in us ==>
      Spares(c.hash, live.state.authorityId, u, CapabilityStamp(c.hash, cap, live.state.authorityId))
    ensures var out := IssueAndCommit(c, live.world, cap, epochSk, cert, live.state);
      var final := MaintainAll(c, Live(out.world, out.result.value.1.state), us).value;
      var proof := FreshProof(c, final, cap, out.result.value.0);
      proof.Some? && (ValidateCapability(c, cap, proof.value, final.state, req).Ok? <==> Grants(cap, final.state, req))
  {
    hide Holds, Spares, CapabilityStamp, MaintainAll, FreshProof, ValidateCapability, Grants, Consistent;
    hide CanIssue, CoversOwnEpoch, ParentStampWellFormed;
    IssueEstablishesHeld(c, live, cap, epochSk, cert);
    var out := IssueAndCommit(c, live.world, cap, epochSk, cert, live.state);
    IssueKeepsId(c, live, cap, epochSk, cert);
    var issued := Live(out.world, out.result.value.1.state);
    MaintenanceKeepsHeld(c, issued, us, cap, out.result.value.0);
    HeldCapabilityValidates(c, MaintainAll(c, issued, us).value, cap, out.result.value.0, req);
  }

  /** Issuing publishes the base with the new authority root, under the log's own root, and leaves the rest alone. */
  lemma IssuePublishes(
      c: Suite, w: World, cap: Capability, epochSk: Bytes32, cert: EpochKeyCert, base: AuthorityState)
    requires IssueAndCommit(c, w, cap, epochSk, cert, base).result.Ok?
    ensures var out := IssueAndCommit(c, w, cap, epochSk, cert, base);
      var (proof, commit) := out.result.value;
      && out.world.tree == Tree(AddLeaf(w.tree.leaves, CapabilityLeaf(c.hash, cap)), w.tree.revoked)
      && commit.state.(authorityRoot := base.authorityRoot, transparencyRoot := base.transparencyRoot) == base
      && commit.state.authorityRoot == Root(c.hash, out.world.tree.leaves)
      && commit.state.transparencyRoot == CurrentRoot(c.hash, out.world.entries)
      && proof.epochCert == cert
  {
    hide Root, CapabilityLeaf, FindIndex, TransparencyLeaf, ProofAt, IssuanceMessage, AddLeaf, CurrentRoot;
  }

  lemma IssueKeepsId(c: Suite, live: Live, cap: Capability, epochSk: Bytes32, cert: EpochKeyCert)
    requires IssueAndCommit(c, live.world, cap, epochSk, cert, live.state).result.Ok?
    ensures IssueAndCommit(c, live.world, cap, epochSk, cert, live.state).result.value.1.state.authorityId
      == live.state.authorityId
  {
    hide Root, CapabilityLeaf, FindIndex, TransparencyLeaf, ProofAt, IssuanceMessage;
  }

  /** Distinct capabilities have distinct stamps under one authority, so revoking one spares the other. */
  lemma OtherStampsDiffer(h: Hash, Q: set<Bytes>, a: Capability, b: Capability, authorityId: Bytes)
    requires CollisionFree(h, Q) && Distinguishable(Q, a) && Distinguishable(Q, b) && a != b
    requires StampInput(CapabilityLeaf(h, a), authorityId) in Q && StampInput(CapabilityLeaf(h, b), authorityId) in Q
    ensures CapabilityStamp(h, a, authorityId) != CapabilityStamp(h, b, authorityId)
  {
    hide Distinguishable, CapabilityLeaf, StampInput;
    if CapabilityStamp(h, a, authorityId) == CapabilityStamp(h, b, authorityId) {
      StampInputInjective(CapabilityLeaf(h, a), authorityId, CapabilityLeaf(h, b), authorityId);
      LeafIdentifiesCapability(h, Q, a, b);
    }
  }

  // ----- why upkeep excludes new issuance

  /** An issuance proof is accepted under exactly the one root that its signer saw. */
  lemma IssuanceIsTiedToItsRoot(
      c: Suite, M: set<Bytes>, tree: Tree, cap: Capability, epochSk: Bytes32, cert: EpochKeyCert, rootPk: Bytes32,
      root: Bytes32)
    requires SignaturesVerify(c) && SignaturesBind(c, M) && CanIssue(c, rootPk, epochSk, cert) && CoversOwnEpoch(cert)
    requires IssueCapability(c, tree, cap, epochSk, cert).Ok?
    requires IssuanceMessage(CapabilityLeaf(c.hash, cap), root, cert.epoch) in M
    requires IssuanceMessage(
      CapabilityLeaf(c.hash, cap), Root(c.hash, AddLeaf(tree.leaves, CapabilityLeaf(c.hash, cap))), cert.epoch) in M
    ensures var (after, proof) := IssueCapability(c, tree, cap, epochSk, cert).value;
      VerifyIssuance(c, cap, root, cert.epoch, proof, rootPk).Ok? <==> root == Root(c.hash, after.leaves)
  {
    hide IssuanceMessage, CapabilityLeaf, Root, VerifyEpochCert;
    var (after, proof) := IssueCapability(c, tree, cap, epochSk, cert).value;
    var leaf := CapabilityLeaf(c.hash, cap);
    if VerifyIssuance(c, cap, root, cert.epoch, proof, rootPk).Ok? {
      IssuanceMessageBinds(leaf, root, cert.epoch, leaf, Root(c.hash, after.leaves), cert.epoch);
    }
  }

  /** Issuing a further capability moves the root, and with it retires every earlier issuance proof. */
  lemma NewIssuanceMovesTheRoot(
      h: Hash, Q: set<Bytes>, caps: seq<Capability>, leaves: seq<Bytes32>, cap: Capability)
    requires LeavesOf(h, caps, leaves) && Ideal(h, Q)
    requires Distinguishable(Q, cap) && forall c :: c in caps ==> Distinguishable(Q, c)
    requires TreeWithin(h, leaves, Q) && TreeWithin(h, AddLeaf(leaves, CapabilityLeaf(h, cap)), Q)
    ensures Root(h, AddLeaf(leaves, CapabilityLeaf(h, cap))) == Root(h, leaves) <==> cap in caps
  {
    hide Distinguishable, CapabilityLeaf, CollisionFree, AvoidsReserved, Root, TreeWithin, AllLeafLike, LeafLike;
    var leaf := CapabilityLeaf(h, cap);
    if leaf in leaves {
      var i :| 0 <= i < |leaves| && leaves[i] == leaf;
      LeafIdentifiesCapability(h, Q, caps[i], cap);
    } else if Root(h, leaves + [leaf]) == Root(h, leaves) {
      LeavesAreLeafLike(h, Q, caps, leaves);
      LeavesAreLeafLike(h, Q, caps + [cap], leaves + [leaf]);
      RootInjective(h, Q, leaves, leaves + [leaf]);
    }
  }

  // ----- what a rotation carries over

  /** `cap` is active in what is published and issued for its root, revoked or not. */
  ghost predicate Issued(c: Suite, live: Live, cap: Capability, issuance: IssuanceProof) {
    && Consistent(c.hash, live) && ParentStampWellFormed(cap)
    && CapabilityLeaf(c.hash, cap) in live.world.tree.leaves
    && VerifyIssuance(c, cap, live.state.authorityRoot, issuance.epochCert.epoch, issuance, live.state.rootPk).Ok?
  }

  /** A full-depth proof that validates under `state`, against the revocation list `v`. */
  ghost predicate Validates(
      c: Suite, Q: set<Bytes>, v: seq<Bytes32>, cap: Capability, proof: CapabilityProof, state: AuthorityState,
      req: OpenRequest)
  {
    && WitnessWithin(c.hash, proof.nonRevocation, Q) && HasDepth(proof.nonRevocation, |v|)
    && ValidateCapability(c, cap, proof, state, req).Ok?
  }

  lemma RotationCarriesOver(c: Suite, w: World, base: AuthorityState, args: RotateArgs)
    requires RotateEpoch(c, w, base, args).result.Ok?
    ensures var state := RotateEpoch(c, w, base, args).result.value.state;
      && state.authorityRoot == base.authorityRoot && state.revocationRoot == base.revocationRoot
      && state.revocationCount == base.revocationCount && SameAuthority(state, base) && state.epoch == args.newEpoch
      && state.prevEpochHash == args.prevEpochHash
    ensures var r := RotateEpoch(c, w, base, args).result.value;
      && r.epochPk == r.epochCert.epochPk == c.signingPk(args.epochSk)
      && r.epochCert.epoch == args.newEpoch && r.epochCert.validityWindow == args.validityWindow
    ensures RotateEpoch(c, w, base, args).world.tree == w.tree
  {
    hide FindIndex, TransparencyLeaf, ProofAt, CurrentRoot, StoreChainHash, EntryHash, EpochRootMessage, CertMessage;
  }

  /**
    Exactly what a rotation's base decides. Whatever the tree holds by now, some full-depth
    proof of the capability validates under the rotated state if and only if the stamp is
    not in the list that the base published.
   */
  lemma RotatedStateAcceptsIff(
      c: Suite, Q: set<Bytes>, was: Live, w: World, cap: Capability, issuance: IssuanceProof, args: RotateArgs,
      req: OpenRequest)
    requires Issued(c, was, cap, issuance) && RotateEpoch(c, w, was.state, args).result.Ok?
    requires Grants(cap, RotateEpoch(c, w, was.state, args).result.value.state, req)
    requires Ideal(c.hash, Q) && TreeWithin(c.hash, was.world.tree.revoked, Q)
    ensures (exists proof ::
        Validates(c, Q, was.world.tree.revoked, cap, proof, RotateEpoch(c, w, was.state, args).result.value.state, req))
      <==> CapabilityStamp(c.hash, cap, was.state.authorityId) !in was.world.tree.revoked
  {
    hide Root, StrictlySorted, CapabilityLeaf, CapabilityStamp, Grants, ParentStampWellFormed, Ideal, TreeWithin;
    hide MakeWitness, VerifyInclusion, VerifyNonRevocation, VerifyIssuance, RotateEpoch, InclusionProofFor;
    hide WitnessWithin, HasDepth;
    var state := RotateEpoch(c, w, was.state, args).result.value.state;
    var v, stamp := was.world.tree.revoked, CapabilityStamp(c.hash, cap, was.state.authorityId);
    RotationCarriesOver(c, w, was.state, args);
    if stamp !in v {
      var moved := was.(state := state);
      ListedCapabilityValidates(c, moved, cap, issuance, req);
      WitnessComplete(c.hash, v, stamp);
      MadeWitnessWithin(c.hash, Q, v, stamp);
      assert Validates(c, Q, v, cap, FreshProof(c, moved, cap, issuance).value, state, req);
    }
    forall proof | Validates(c, Q, v, cap, proof, state, req)
      ensures stamp !in v
    {
      NonRevocationSound(c.hash, Q, v, proof.nonRevocation);
    }
  }

  /**
    The failing family: revoke a held capability, then rotate to a later epoch on the state
    from before. The log takes it, the stamp is in the tree's list, and yet the proof from
    before the revocation validates for every request the capability grants.
   */
  lemma StaleRotationAcceptsRevoked(
      c: Suite, live: Live, cap: Capability, issuance: IssuanceProof, revokeEpoch: u64, args: RotateArgs,
      req: OpenRequest)
    requires Holds(c, live, cap, issuance) && revokeEpoch < args.newEpoch
    requires RevokeAndCommit(c.hash, live.world, cap, live.state, revokeEpoch).result.Ok?
    requires LogAdmits(c.hash, RevokeAndCommit(c.hash, live.world, cap, live.state, revokeEpoch).world.entries,
                       RotatedState(live.state, args.newEpoch, args.prevEpochHash))
    ensures var out := RotateEpoch(
        c, RevokeAndCommit(c.hash, live.world, cap, live.state, revokeEpoch).world, live.state, args);
      && CapabilityStamp(c.hash, cap, live.state.authorityId) in out.world.tree.revoked
      && out.result.Ok? && out.result.value.state.epoch > revokeEpoch
      && FreshProof(c, live, cap, issuance).Some?
      && HasDepth(FreshProof(c, live, cap, issuance).value.nonRevocation, |live.world.tree.revoked|)
      && (ValidateCapability(c, cap, FreshProof(c, live, cap, issuance).value, out.result.value.state, req).Ok?
          <==> Grants(cap, out.result.value.state, req))
  {
    hide Root, CapabilityLeaf, CapabilityStamp, Grants, ParentStampWellFormed, StrictlySorted, HasDepth;
    hide MakeWitness, VerifyIssuance, RotateEpoch, InclusionProofFor, RevokeAndCommit, LogAdmits, ValidateCapability;
    var stamp := CapabilityStamp(c.hash, cap, live.state.authorityId);
    var w := RevokeAndCommit(c.hash, live.world, cap, live.state, revokeEpoch).world;
    RevocationAddsStamp(c.hash, live.world, cap, live.state, revokeEpoch);
    AdmittedRotationSucceeds(c, w, live.state, args);
    RotationCarriesOver(c, w, live.state, args);
    var state := RotateEpoch(c, w, live.state, args).result.value.state;
    ListedCapabilityValidates(c, live.(state := state), cap, issuance, req);
    WitnessComplete(c.hash, live.world.tree.revoked, stamp);
  }

  lemma RevocationAddsStamp(h: Hash, w: World, cap: Capability, base: AuthorityState, revokeEpoch: u64)
    requires StrictlySorted(w.tree.revoked) && RevokeAndCommit(h, w, cap, base, revokeEpoch).result.Ok?
    ensures
      CapabilityStamp(h, cap, base.authorityId) in RevokeAndCommit(h, w, cap, base, revokeEpoch).world.tree.revoked
  {
    hide Root, CapabilityStamp, InsertStamp, StrictlySorted, Commit, InclusionProofFor;
    InsertStampIsSortedSetInsert(w.tree.revoked, CapabilityStamp(h, cap, base.authorityId));
  }

  /** The log is all that can refuse a rotation. */
  lemma AdmittedRotationSucceeds(c: Suite, w: World, base: AuthorityState, args: RotateArgs)
    ensures RotateEpoch(c, w, base, args).result.Ok?
      <==> LogAdmits(c.hash, w.entries, RotatedState(base, args.newEpoch, args.prevEpochHash))
  {
    hide FindIndex, TransparencyLeaf, CommitAt, StoreChainHash, EntryHash, EpochRootMessage, CertMessage;
  }

  // ----- runs that also issue

  /** Any successful operation of the authority on top of the current state. */
  datatype Activity =
    | Keep(upkeep: Upkeep)
    | IssueMore(cap: Capability, epochSk: Bytes32, cert: EpochKeyCert)

  function Act(c: Suite, live: Live, x: Activity): Result<Live> {
    match x
    case Keep(u) => Maintain(c, live, u)
    case IssueMore(cap, epochSk, cert) =>
      var out := IssueAndCommit(c, live.world, cap, epochSk, cert, live.state);
      var issued :- out.result;
      Ok(Live(out.world, issued.1.state))
  }

  function ActAll(c: Suite, live: Live, xs: seq<Activity>): Result<Live>
    decreases |xs|
  {
    if xs == [] then Ok(live)
    else
      var next :- Act(c, live, xs[0]);
      ActAll(c, next, xs[1..])
  }

  /** Working on the last published state keeps the state describing the tree, and keeps every revocation. */
  lemma ActKeepsConsistent(c: Suite, live: Live, x: Activity)
    requires Consistent(c.hash, live) && Act(c, live, x).Ok?
    ensures var after := Act(c, live, x).value;
      && Consistent(c.hash, after) && SameAuthority(after.state, live.state)
      && forall s :: s in live.world.tree.revoked ==> s in after.world.tree.revoked
  {
    hide Root, StrictlySorted, CapabilityLeaf, CapabilityStamp, InsertStamp, FindIndex, TransparencyLeaf, ProofAt;
    hide CurrentRoot, StoreChainHash, EntryHash, IssuanceMessage, EpochRootMessage, CertMessage, InclusionProofFor;
    hide AddLeaf;
    if x.Keep? && x.upkeep.RevokeOther? {
      InsertStampIsSortedSetInsert(
        live.world.tree.revoked, CapabilityStamp(c.hash, x.upkeep.cap, live.state.authorityId));
    }
  }

  lemma {:induction false} ActivityKeepsConsistent(c: Suite, live: Live, xs: seq<Activity>)
    requires Consistent(c.hash, live) && ActAll(c, live, xs).Ok?
    ensures var after := ActAll(c, live, xs).value;
      && Consistent(c.hash, after) && SameAuthority(after.state, live.state)
      && forall s :: s in live.world.tree.revoked ==> s in after.world.tree.revoked
    decreases |xs|
  {
    hide Act, Consistent;
    if xs != [] {
      ActKeepsConsistent(c, live, xs[0]);
      ActivityKeepsConsistent(c, Act(c, live, xs[0]).value, xs[1..]);
    }
  }

  /**
    Permanence along every run that works on the last published state: after revoking a
    capability, whatever is issued, revoked and rotated next, the state published last
    rejects every full-depth proof of it.
   */
  lemma RevokedStaysRejected(
      c: Suite, Q: set<Bytes>, live: Live, cap: Capability, revokeEpoch: u64, xs: seq<Activity>,
      proof: CapabilityProof, req: OpenRequest)
    requires Consistent(c.hash, live) && ActAll(c, live, [Keep(RevokeOther(cap, revokeEpoch))] + xs).Ok?
    requires var v := ActAll(c, live, [Keep(RevokeOther(cap, revokeEpoch))] + xs).value.world.tree.revoked;
      && Ideal(c.hash, Q) && TreeWithin(c.hash, v, Q) && WitnessWithin(c.hash, proof.nonRevocation, Q)
      && HasDepth(proof.nonRevocation, |v|)
    ensures var final := ActAll(c, live, [Keep(RevokeOther(cap, revokeEpoch))] + xs).value;
      ValidateCapability(c, cap, proof, final.state, req).Err?
  {
    hide Ideal, TreeWithin, WitnessWithin, HasDepth, CapabilityStamp, StrictlySorted, RevokeAndCommit, Root, Grants;
    hide VerifyInclusion, VerifyNonRevocation, VerifyIssuance, ParentStampWellFormed;
    var all := [Keep(RevokeOther(cap, revokeEpoch))] + xs;
    assert all[0] == Keep(RevokeOther(cap, revokeEpoch)) && all[1..] == xs;
    var next := Act(c, live, all[0]).value;
    ActKeepsConsistent(c, live, all[0]);
    RevocationAddsStamp(c.hash, live.world, cap, live.state, revokeEpoch);
    ActivityKeepsConsistent(c, next, xs);
    var final := ActAll(c, next, xs).value;
    if VerifyNonRevocation(c.hash, proof.nonRevocation, final.state.revocationRoot, final.state.revocationCount).Ok? {
      NonRevocationSound(c.hash, Q, final.world.tree.revoked, proof.nonRevocation);
    }
  }

  /** The capabilities that are active after an activity. */
  function Grown(caps: seq<Capability>, x: Activity): seq<Capability> {
    if x.IssueMore? && x.cap !in caps then caps + [x.cap] else caps
  }

  function GrownAll(caps: seq<Capability>, xs: seq<Activity>): (after: seq<Capability>)
    ensures caps <= after
    decreases |xs|
  {
    if xs == [] then caps else GrownAll(Grown(caps, xs[0]), xs[1..])
  }

  /** An activity that spares the stamp and issues only what can be told apart. */
  ghost predicate Harmless(h: Hash, Q: set<Bytes>, authorityId: Bytes, x: Activity, stamp: Bytes32) {
    match x
    case Keep(u) => Spares(h, authorityId, u, stamp)
    case IssueMore(cap, _, _) => Distinguishable(Q, cap)
  }

  /** Nothing was added exactly when everything issued was active already. */
  lemma {:induction false} NothingGrownIff(caps: seq<Capability>, xs: seq<Activity>)
    ensures |GrownAll(caps, xs)| == |caps| <==> forall x :: x in xs && x.IssueMore? ==> x.cap in caps
    decreases |xs|
  {
    if xs != [] {
      NothingGrownIff(Grown(caps, xs[0]), xs[1..]);
      assert xs[0] in xs;
    }
  }

  lemma ActKeepsListed(
      c: Suite, Q: set<Bytes>, live: Live, caps: seq<Capability>, x: Activity, cap: Capability)
    requires Listed(c.hash, live, cap) && Act(c, live, x).Ok? && CollisionFree(c.hash, Q)
    requires LeavesOf(c.hash, caps, live.world.tree.leaves) && forall k :: k in caps ==> Distinguishable(Q, k)
    requires Harmless(
      c.hash, Q, live.state.authorityId, x, CapabilityStamp(c.hash, cap, live.state.authorityId))
    ensures var after := Act(c, live, x).value;
      && Listed(c.hash, after, cap) && LeavesOf(c.hash, Grown(caps, x), after.world.tree.leaves)
      && SameAuthority(after.state, live.state)
  {
    hide Root, StrictlySorted, CapabilityLeaf, CapabilityStamp, Distinguishable, CollisionFree, Maintain;
    hide ParentStampWellFormed, FindIndex, TransparencyLeaf, ProofAt, IssuanceMessage;
    if x.IssueMore? {
      LeafListedIff(c.hash, Q, caps, live.world.tree.leaves, x.cap);
    } else {
      UpkeepKeepsListed(c, live, x.upkeep, cap);
    }
  }

  lemma LeafListedIff(h: Hash, Q: set<Bytes>, caps: seq<Capability>, leaves: seq<Bytes32>, cap: Capability)
    requires LeavesOf(h, caps, leaves) && CollisionFree(h, Q)
    requires Distinguishable(Q, cap) && forall k :: k in caps ==> Distinguishable(Q, k)
    ensures CapabilityLeaf(h, cap) in leaves <==> cap in caps
  {
    hide Distinguishable, CapabilityLeaf, CollisionFree;
    if CapabilityLeaf(h, cap) in leaves {
      var i :| 0 <= i < |leaves| && leaves[i] == CapabilityLeaf(h, cap);
      LeafIdentifiesCapability(h, Q, caps[i], cap);
    }
    if cap in caps {
      var i :| 0 <= i < |caps| && caps[i] == cap;
      assert leaves[i] == CapabilityLeaf(h, cap);
    }
  }

  lemma {:induction false} ActivityKeepsListed(
      c: Suite, Q: set<Bytes>, live: Live, caps: seq<Capability>, xs: seq<Activity>, cap: Capability)
    requires Listed(c.hash, live, cap) && ActAll(c, live, xs).Ok? && CollisionFree(c.hash, Q)
    requires LeavesOf(c.hash, caps, live.world.tree.leaves) && forall k :: k in caps ==> Distinguishable(Q, k)
    requires forall x :: x in xs ==>
      Harmless(c.hash, Q, live.state.authorityId, x, CapabilityStamp(c.hash, cap, live.state.authorityId))
    ensures var after := ActAll(c, live, xs).value;
      && Listed(c.hash, after, cap) && LeavesOf(c.hash, GrownAll(caps, xs), after.world.tree.leaves)
      && SameAuthority(after.state, live.state)
    ensures forall k :: k in GrownAll(caps, xs) ==> Distinguishable(Q, k)
    decreases |xs|
  {
    hide Act, Listed, LeavesOf, CapabilityStamp, Distinguishable, CollisionFree;
    if xs != [] {
      assert xs[0] in xs;
      ActKeepsListed(c, Q, live, caps, xs[0], cap);
      ActivityKeepsListed(c, Q, Act(c, live, xs[0]).value, Grown(caps, xs[0]), xs[1..], cap);
    }
  }

  /** Two lists of capabilities have the same root exactly when they have the same length, one extending the other. */
  lemma RootStaysIff(h: Hash, Q: set<Bytes>, caps: seq<Capability>, leaves: seq<Bytes32>,
                     more: seq<Capability>, moreLeaves: seq<Bytes32>)
    requires LeavesOf(h, caps, leaves) && LeavesOf(h, more, moreLeaves) && caps <= more && Ideal(h, Q)
    requires forall k :: k in more ==> Distinguishable(Q, k)
    requires TreeWithin(h, leaves, Q) && TreeWithin(h, moreLeaves, Q)
    ensures Root(h, moreLeaves) == Root(h, leaves) <==> |more| == |caps|
  {
    hide Distinguishable, CapabilityLeaf, CollisionFree, AvoidsReserved, Root, TreeWithin, AllLeafLike;
    LeavesAreLeafLike(h, Q, caps, leaves);
    LeavesAreLeafLike(h, Q, more, moreLeaves);
    if |more| == |caps| {
      assert more == caps && moreLeaves == leaves;
    } else if Root(h, moreLeaves) == Root(h, leaves) {
      RootInjective(h, Q, moreLeaves, leaves);
    }
  }

  /** A capability and the proof it was issued with, in a world that publishes `caps`. */
  ghost predicate JustIssued(
      c: Suite, before: Tree, live: Live, caps: seq<Capability>, cap: Capability, epochSk: Bytes32, cert: EpochKeyCert,
      issuance: IssuanceProof)
  {
    && Listed(c.hash, live, cap) && LeavesOf(c.hash, caps, live.world.tree.leaves)
    && CanIssue(c, live.state.rootPk, epochSk, cert) && CoversOwnEpoch(cert)
    && IssueCapability(c, before, cap, epochSk, cert) == Ok((live.world.tree, issuance))
  }

  /** Issuing and committing puts a capability in that position. */
  lemma IssueIsJustIssued(
      c: Suite, Q: set<Bytes>, live: Live, caps: seq<Capability>, cap: Capability, epochSk: Bytes32, cert: EpochKeyCert)
    requires SignaturesVerify(c) && CanIssue(c, live.state.rootPk, epochSk, cert) && CoversOwnEpoch(cert)
    requires Consistent(c.hash, live) && ParentStampWellFormed(cap) && CollisionFree(c.hash, Q)
    requires CapabilityStamp(c.hash, cap, live.state.authorityId) !in live.world.tree.revoked
    requires LeavesOf(c.hash, caps, live.world.tree.leaves)
    requires Distinguishable(Q, cap) && forall k :: k in caps ==> Distinguishable(Q, k)
    requires IssueAndCommit(c, live.world, cap, epochSk, cert, live.state).result.Ok?
    ensures var out := IssueAndCommit(c, live.world, cap, epochSk, cert, live.state);
      JustIssued(c, live.world.tree, Live(out.world, out.result.value.1.state),
                 Grown(caps, IssueMore(cap, epochSk, cert)), cap, epochSk, cert, out.result.value.0)
  {
    hide Root, StrictlySorted, CapabilityLeaf, CapabilityStamp, ParentStampWellFormed, Distinguishable, CollisionFree;
    hide FindIndex, TransparencyLeaf, ProofAt, IssuanceMessage, CanIssue, CoversOwnEpoch;
    LeafListedIff(c.hash, Q, caps, live.world.tree.leaves, cap);
  }

  /**
    How long an issuance proof lasts: after any successful run of rotations, revocations of
    others and further issues, the original proof with fresh tree proofs validates for
    exactly the requests the capability grants, provided nothing new was issued, and for
    none otherwise.
   */
  lemma IssuanceOutlivesRunIff(
      c: Suite, Q: set<Bytes>, M: set<Bytes>, before: Tree, live: Live, caps: seq<Capability>, cap: Capability,
      epochSk: Bytes32, cert: EpochKeyCert, issuance: IssuanceProof, xs: seq<Activity>, req: OpenRequest)
    requires SignaturesVerify(c) && SignaturesBind(c, M) && Ideal(c.hash, Q)
    requires JustIssued(c, before, live, caps, cap, epochSk, cert, issuance) && ActAll(c, live, xs).Ok?
    requires forall k :: k in caps ==> Distinguishable(Q, k)
    requires forall x :: x in xs ==>
      Harmless(c.hash, Q, live.state.authorityId, x, CapabilityStamp(c.hash, cap, live.state.authorityId))
    requires TreeWithin(c.hash, live.world.tree.leaves, Q)
    requires TreeWithin(c.hash, ActAll(c, live, xs).value.world.tree.leaves, Q)
    requires forall root | root in {live.state.authorityRoot, ActAll(c, live, xs).value.state.authorityRoot} ::
      IssuanceMessage(CapabilityLeaf(c.hash, cap), root, cert.epoch) in M
    ensures var final := ActAll(c, live, xs).value;
      var proof := FreshProof(c, final, cap, issuance);
      && proof.Some?
      && (ValidateCapability(c, cap, proof.value, final.state, req).Ok? <==>
          && Grants(cap, final.state, req)
          && forall x :: x in xs && x.IssueMore? ==> x.cap in caps)
  {
    hide SignaturesVerify, SignaturesBind, CollisionFree, AvoidsReserved, CanIssue, CoversOwnEpoch;
    hide Distinguishable, Harmless, ActAll, Root, TreeWithin, CapabilityStamp, CapabilityLeaf, IssuanceMessage;
    hide FreshProof, ValidateCapability, Grants, LeavesOf, VerifyIssuance, StrictlySorted, ParentStampWellFormed;
    var final := ActAll(c, live, xs).value;
    ActivityKeepsListed(c, Q, live, caps, xs, cap);
    ListedCapabilityValidates(c, final, cap, issuance, req);
    IssuanceIsTiedToItsRoot(c, M, before, cap, epochSk, cert, live.state.rootPk, final.state.authorityRoot);
    RootStaysIff(c.hash, Q, caps, live.world.tree.leaves, GrownAll(caps, xs), final.world.tree.leaves);
    NothingGrownIff(caps, xs);
  }

  /** The same from the issue itself: what it returns lasts exactly as long as nothing new is issued. */
  lemma IssuedCapabilityLastsIff(
      c: Suite, Q: set<Bytes>, M: set<Bytes>, live: Live, caps: seq<Capability>, cap: Capability,
      epochSk: Bytes32, cert: EpochKeyCert, xs: seq<Activity>, req: OpenRequest)
    requires SignaturesVerify(c) && SignaturesBind(c, M) && Ideal(c.hash, Q)
    requires CanIssue(c, live.state.rootPk, epochSk, cert) && CoversOwnEpoch(cert)
    requires Consistent(c.hash, live) && ParentStampWellFormed(cap)
    requires CapabilityStamp(c.hash, cap, live.state.authorityId) !in live.world.tree.revoked
    requires LeavesOf(c.hash, caps, live.world.tree.leaves)
    requires Distinguishable(Q, cap) && forall k :: k in caps ==> Distinguishable(Q, k)
    requires forall x :: x in xs ==>
      Harmless(c.hash, Q, live.state.authorityId, x, CapabilityStamp(c.hash, cap, live.state.authorityId))
    requires IssueAndCommit(c, live.world, cap, epochSk, cert, live.state).result.Ok?
    requires var out := IssueAndCommit(c, live.world, cap, epochSk, cert, live.state);
      var issued := Live(out.world, out.result.value.1.state);
      && ActAll(c, issued, xs).Ok?
      && TreeWithin(c.hash, out.world.tree.leaves, Q)
      && TreeWithin(c.hash, ActAll(c, issued, xs).value.world.tree.leaves, Q)
      && forall root | root in {issued.state.authorityRoot, ActAll(c, issued, xs).value.state.authorityRoot} ::
        IssuanceMessage(CapabilityLeaf(c.hash, cap), root, cert.epoch) in M
    ensures var out := IssueAndCommit(c, live.world, cap, epochSk, cert, live.state);
      var final := ActAll(c, Live(out.world, out.result.value.1.state), xs).value;
      var proof := FreshProof(c, final, cap, out.result.value.0);
      && proof.Some?
      && (ValidateCapability(c, cap, proof.value, final.state, req).Ok? <==>
          && Grants(cap, final.state, req)
          && forall x :: x in xs && x.IssueMore? ==> x.cap in caps || x.cap == cap)
  {
    hide SignaturesVerify, SignaturesBind, CollisionFree, AvoidsReserved, CanIssue, CoversOwnEpoch, Consistent;
    hide Distinguishable, Harmless, ActAll, TreeWithin, CapabilityStamp, CapabilityLeaf, IssuanceMessage, JustIssued;
    hide FreshProof, ValidateCapability, Grants, LeavesOf, ParentStampWellFormed, IssueAndCommit;
    var out := IssueAndCommit(c, live.world, cap, epochSk, cert, live.state);
    var issued := Live(out.world, out.result.value.1.state);
    var grown := Grown(caps, IssueMore(cap, epochSk, cert));
    IssueIsJustIssued(c, Q, live, caps, cap, epochSk, cert);
    IssueKeepsId(c, live, cap, epochSk, cert);
    IssuanceOutlivesRunIff(
      c, Q, M, live.world.tree, issued, grown, cap, epochSk, cert, out.result.value.0, xs, req);
    assert forall k :: k in grown <==> k in caps || k == cap;
  }

  // ----- rotations build the chain

  function LinkOf(r: Rotation): Link {
    Link(r.state.authorityRoot, r.state.revocationRoot, r.state.epoch, r.epochPk, r.sigma)
  }

  /** `r`'s chain hash is the hash of its own link on top of the hash its state names as previous. */
  ghost predicate HashesItself(h: Hash, r: Rotation) {
    r.chainHash == EntryHash(h, r.state.prevEpochHash, LinkOf(r))
  }

  /** Every rotation hashes itself, and the log hands the hash out for its key. */
  lemma RotationHashesItself(c: Suite, w: World, base: AuthorityState, args: RotateArgs)
    requires Keyed(w.entries) && RotateEpoch(c, w, base, args).result.Ok?
    ensures var out := RotateEpoch(c, w, base, args);
      && HashesItself(c.hash, out.result.value)
      && out.result.value.state.prevEpochHash == args.prevEpochHash
      && ChainHashFor(out.world.entries, out.result.value.state.authorityId, out.result.value.state.epoch)
         == Some(out.result.value.chainHash)
  {
    hide TransparencyLeaf, ProofAt, CurrentRoot, EntryHash, CertMessage, EpochRootMessage, FindIndex;
    var state := RotatedState(base, args.newEpoch, args.prevEpochHash);
    var grown := Commit(c.hash, w.entries, state).value.0;
    var out := RotateEpoch(c, w, base, args);
    ApplyKeeps(c.hash, w.entries, CommitOp(state));
    var i := CommitRecords(c.hash, w.entries, state);
    KeyedLookup(grown, i);
    ApplyKeeps(c.hash, grown, ChainOp(state.authorityId, state.epoch, out.result.value.chainHash));
    KeyedLookup(out.world.entries, i);
  }

  /** Each rotation names its predecessor's chain hash as previous; epoch 0 comes first and only first. */
  ghost predicate LinkedRotations(h: Hash, rs: seq<Rotation>) {
    && (forall r :: r in rs ==> HashesItself(h, r))
    && (forall i :: 0 < i < |rs| ==> rs[i].state.prevEpochHash == rs[i - 1].chainHash && rs[i].state.epoch > 0)
    && (rs != [] ==> rs[0].state.epoch == 0)
  }

  function LinksOf(rs: seq<Rotation>): (links: seq<Link>)
    ensures |links| == |rs| && forall i :: 0 <= i < |rs| ==> links[i] == LinkOf(rs[i])
  {
    seq(|rs|, i requires 0 <= i < |rs| => LinkOf(rs[i]))
  }

  lemma {:induction false} LastHashIsTheChain(h: Hash, rs: seq<Rotation>)
    requires LinkedRotations(h, rs) && rs != []
    ensures rs[|rs| - 1].chainHash == Chain(h, LinksOf(rs))
    decreases |rs|
  {
    hide EntryHash, LinksOf;
    var n := |rs| - 1;
    assert rs[n] in rs && rs[0] in rs;
    assert LinksOf(rs)[..n] == LinksOf(rs[..n]);
    if n > 0 {
      assert forall r :: r in rs[..n] ==> r in rs;
      LastHashIsTheChain(h, rs[..n]);
    } else {
      assert LinksOf(rs[..n]) == [];
      GenesisIgnoresPrevious(h, rs[0].state.prevEpochHash, ZERO, LinkOf(rs[0]));
    }
  }

  /** Two linked rotation histories whose last chain hashes agree went through the same rotations. */
  lemma RotationHistoryIsBound(h: Hash, Q: set<Bytes>, xs: seq<Rotation>, ys: seq<Rotation>)
    requires LinkedRotations(h, xs) && LinkedRotations(h, ys) && xs != [] && ys != []
    requires xs[|xs| - 1].chainHash == ys[|ys| - 1].chainHash
    requires CollisionFree(h, Q) && ChainWithin(h, LinksOf(xs), Q) && ChainWithin(h, LinksOf(ys), Q)
    ensures LinksOf(xs) == LinksOf(ys)
  {
    hide Chain, ChainWithin;
    LastHashIsTheChain(h, xs);
    LastHashIsTheChain(h, ys);
    ChainBindsHistory(h, Q, LinksOf(xs), LinksOf(ys));
  }
}
