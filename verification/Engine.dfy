/**
  The engine operations that update the tree and the log in place
  (src/kyriotes_csk2/engine.rs), each proved to leave exactly the world, and return
  exactly the result, that the lifecycle functions describe.
 */
module Engine {
  import opened Octets
  import opened Merkle
  import opened Model
  import opened Crypto
  import opened CapabilityTree
  import opened TransparencyLog
  import opened Authority
  import opened ChainHash
  import Lifecycle

  ghost function TreeOf(tree: AuthorityCapabilityTree): Lifecycle.Tree
    reads tree
  {
    Lifecycle.Tree(tree.leafHashes, tree.revokedStamps)
  }

  ghost function WorldOf(tree: AuthorityCapabilityTree, log: InMemoryTransparencyLog): Lifecycle.World
    reads tree, log
  {
    Lifecycle.World(TreeOf(tree), log.entries)
  }

  method RevokeCapability(tree: AuthorityCapabilityTree, cap: Capability, base: AuthorityState, revokeEpoch: u64)
      returns (r: Result<AuthorityState>)
    requires tree.Valid()
    modifies tree
    ensures tree.Valid()
    ensures match Lifecycle.RevokeCapability(tree.h, old(TreeOf(tree)), cap, base, revokeEpoch)
      case Ok((after, state)) => r == Ok(state) && TreeOf(tree) == after
      case Err(e) => r == Err(e) && TreeOf(tree) == old(TreeOf(tree))
  {
    hide Root, InsertStamp, CapabilityStamp, InclusionProofFor, StrictlySorted;
    var inclusion := tree.InclusionProofOf(cap);
    if inclusion.None? {
      return Err(InvalidCapability);
    }
    var authorityRoot := tree.AuthorityRoot();
    if authorityRoot != base.authorityRoot {
      return Err(AuthorityMismatch);
    }
    var revocationRoot := tree.RevocationRoot();
    if revocationRoot != base.revocationRoot {
      return Err(AuthorityMismatch);
    }
    if revokeEpoch <= base.epoch {
      return Err(AuthorityMismatch);
    }
    tree.RevokeStamp(CapabilityStamp(tree.h, cap, base.authorityId));
    authorityRoot := tree.AuthorityRoot();
    revocationRoot := tree.RevocationRoot();
    r := Ok(base.(epoch := revokeEpoch, transparencyRoot := ZERO, authorityRoot := authorityRoot,
                  revocationRoot := revocationRoot, revocationCount := |tree.revokedStamps|));
  }

  method RevokeCapabilityAndCommit(
      log: InMemoryTransparencyLog, tree: AuthorityCapabilityTree,
      cap: Capability, base: AuthorityState, revokeEpoch: u64) returns (r: Result<StateCommit>)
    requires tree.Valid() && log.Valid() && tree.h == log.h
    modifies tree, log
    ensures tree.Valid() && log.Valid()
    ensures Lifecycle.Outcome(WorldOf(tree, log), r)
      == Lifecycle.RevokeAndCommit(log.h, old(WorldOf(tree, log)), cap, base, revokeEpoch)
  {
    hide Commit, Extends, StrictlySorted, Keyed;
    var state :- RevokeCapability(tree, cap, base, revokeEpoch);
    r := log.CommitState(state);
  }

  method IssueCapability(
      c: Suite, tree: AuthorityCapabilityTree, cap: Capability, epochSk: Bytes32, cert: EpochKeyCert)
      returns (r: Result<IssuanceProof>)
    requires tree.Valid() && tree.h == c.hash
    modifies tree
    ensures tree.Valid()
    ensures match Lifecycle.IssueCapability(c, old(TreeOf(tree)), cap, epochSk, cert)
      case Ok((after, proof)) => r == Ok(proof) && TreeOf(tree) == after
      case Err(e) => r == Err(e) && TreeOf(tree) == old(TreeOf(tree))
  {
    hide Root, AddLeaf, CapabilityLeaf, IssuanceMessage, StrictlySorted;
    if cert.epoch < cap.epochStart || cert.epoch > cap.epochEnd {
      return Err(InvalidCapability);
    }
    var leaf := tree.AddCapability(cap);
    var root := tree.AuthorityRoot();
    r := Ok(IssuanceProof(c.sign(epochSk, IssuanceMessage(leaf, root, cert.epoch)), cert));
  }

  method IssueCapabilityAndCommit(
      c: Suite, log: InMemoryTransparencyLog, tree: AuthorityCapabilityTree,
      cap: Capability, epochSk: Bytes32, cert: EpochKeyCert, base: AuthorityState)
      returns (r: Result<(IssuanceProof, StateCommit)>)
    requires tree.Valid() && log.Valid() && tree.h == log.h == c.hash
    modifies tree, log
    ensures tree.Valid() && log.Valid()
    ensures Lifecycle.Outcome(WorldOf(tree, log), r)
      == Lifecycle.IssueAndCommit(c, old(WorldOf(tree, log)), cap, epochSk, cert, base)
  {
    hide Commit, Extends, StrictlySorted, Keyed, Root;
    var authorityRoot := tree.AuthorityRoot();
    if authorityRoot != base.authorityRoot {
      return Err(AuthorityMismatch);
    }
    var revocationRoot := tree.RevocationRoot();
    if revocationRoot != base.revocationRoot {
      return Err(AuthorityMismatch);
    }
    var proof :- IssueCapability(c, tree, cap, epochSk, cert);
    authorityRoot := tree.AuthorityRoot();
    var commit :- log.CommitState(base.(authorityRoot := authorityRoot, transparencyRoot := ZERO));
    r := Ok((proof, commit));
  }

  method RotateEpochFull(
      c: Suite, log: InMemoryTransparencyLog, ghost tree: AuthorityCapabilityTree,
      base: AuthorityState, args: Lifecycle.RotateArgs) returns (r: Result<Lifecycle.Rotation>)
    requires log.Valid() && log.h == c.hash
    modifies log
    ensures log.Valid()
    ensures Lifecycle.Outcome(WorldOf(tree, log), r)
      == Lifecycle.RotateEpoch(c, old(WorldOf(tree, log)), base, args)
  {
    hide Commit, Extends, Keyed, StoreChainHash, EntryHash, CertMessage;
    var epochPk := c.signingPk(args.epochSk);
    var cert := IssueEpochCert(c, args.rootSk, epochPk, args.newEpoch, args.validityWindow);
    var commit :- log.CommitState(Lifecycle.RotatedState(base, args.newEpoch, args.prevEpochHash));
    var sigma := c.sign(args.epochSk, Lifecycle.EpochRootMessage(commit.state));
    var chainHash := EntryHash(c.hash, args.prevEpochHash,
      Link(commit.state.authorityRoot, commit.state.revocationRoot, commit.state.epoch, epochPk, sigma));
    log.RegisterChainHash(commit.state.authorityId, commit.state.epoch, chainHash);
    r := Ok(Lifecycle.Rotation(cert, epochPk, sigma, commit.state, commit.proof, chainHash));
  }
}
