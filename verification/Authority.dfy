/**
  Epoch certificates, capability validation and delegation (src/kyriotes_csk2/authority.rs,
  capability_tree.rs and engine.rs).
 */
module Authority {
  import opened Octets
  import opened Policy
  import opened Model
  import opened Crypto
  import opened CapabilityTree

  // ----- certificates and issuance

  datatype EpochKeyCert = EpochKeyCert(
    epochPk: Bytes32,
    epoch: u64,
    validityWindow: u64,
    signature: Bytes64)

  datatype IssuanceProof = IssuanceProof(sig: Bytes64, epochCert: EpochKeyCert)

  datatype CapabilityProof = CapabilityProof(
    inclusion: InclusionProof,
    nonRevocation: Witness,
    issuance: IssuanceProof)

  const CERT_TAG: string := "KYRIOTES-CSK2-EPOCH-KEY-v1"
  const ISSUE_TAG: string := "KYRIOTES-CSK2-CAPABILITY-ISSUE-v1"

  function CertMessage(epochPk: Bytes32, epoch: u64, validityWindow: u64): Bytes {
    Tagged(CERT_TAG, epochPk + LittleEndian(epoch, 8) + LittleEndian(validityWindow, 8))
  }

  function IssuanceMessage(leaf: Bytes32, authorityRoot: Bytes32, epoch: u64): Bytes {
    Tagged(ISSUE_TAG, leaf + authorityRoot + LittleEndian(epoch, 8))
  }

  function IssueEpochCert(c: Suite, rootSk: Bytes32, epochPk: Bytes32, epoch: u64, validityWindow: u64): EpochKeyCert {
    EpochKeyCert(epochPk, epoch, validityWindow, c.sign(rootSk, CertMessage(epochPk, epoch, validityWindow)))
  }

  function SaturatingAdd(a: u64, b: u64): u64 {
    if a + b > U64_MAX then U64_MAX else a + b
  }

  function VerifyEpochCert(c: Suite, rootPk: Bytes32, cert: EpochKeyCert): Result<()> {
    if c.verifySig(rootPk, CertMessage(cert.epochPk, cert.epoch, cert.validityWindow), cert.signature)
    then Ok(())
    else Err(AuthorityMismatch)
  }

  function VerifyIssuance(
      c: Suite, cap: Capability, authorityRoot: Bytes32, epoch: u64, proof: IssuanceProof, rootPk: Bytes32): Result<()>
  {
    var cert := proof.epochCert;
    var _ :- VerifyEpochCert(c, rootPk, cert);
    if epoch < cert.epoch || epoch >= SaturatingAdd(cert.epoch, cert.validityWindow) then Err(InvalidCapability)
    else if cert.epoch < cap.epochStart || cert.epoch > cap.epochEnd then Err(InvalidCapability)
    else if !c.verifySig(cert.epochPk, IssuanceMessage(CapabilityLeaf(c.hash, cap), authorityRoot, epoch), proof.sig)
    then Err(InvalidCapability)
    else Ok(())
  }

  /**
    Issuance verification accepts exactly: a certificate of the root, an epoch in both ends
    of its window and below the largest one, a certificate epoch in the capability's window,
    and the certified key's signature over leaf, root and epoch.
   */
  lemma IssuanceAcceptsIff(
      c: Suite, cap: Capability, authorityRoot: Bytes32, epoch: u64, proof: IssuanceProof, rootPk: Bytes32)
    ensures VerifyIssuance(c, cap, authorityRoot, epoch, proof, rootPk).Ok? <==>
      var cert := proof.epochCert;
      && VerifyEpochCert(c, rootPk, cert).Ok?
      && cert.epoch <= epoch < cert.epoch + cert.validityWindow && epoch < U64_MAX
      && cap.epochStart <= cert.epoch <= cap.epochEnd
      && c.verifySig(cert.epochPk, IssuanceMessage(CapabilityLeaf(c.hash, cap), authorityRoot, epoch), proof.sig)
  {
    hide VerifyEpochCert, IssuanceMessage, CapabilityLeaf;
  }

  /** A certificate covers its own epoch exactly when its window is positive and the sum does not saturate there. */
  predicate CoversOwnEpoch(cert: EpochKeyCert) {
    cert.validityWindow > 0 && cert.epoch < U64_MAX
  }

  /** A certificate's signature names its key, its epoch and its window. */
  lemma CertMessageBinds(pk: Bytes32, e: u64, w: u64, pk': Bytes32, e': u64, w': u64)
    requires CertMessage(pk, e, w) == CertMessage(pk', e', w')
    ensures pk == pk' && e == e' && w == w'
  {
    var x := pk + LittleEndian(e, 8) + LittleEndian(w, 8);
    var y := pk' + LittleEndian(e', 8) + LittleEndian(w', 8);
    assert x == y;
    assert x[..32] == pk && x[32..40] == LittleEndian(e, 8) && x[40..] == LittleEndian(w, 8);
    assert y[..32] == pk' && y[32..40] == LittleEndian(e', 8) && y[40..] == LittleEndian(w', 8);
    LittleEndian64Injective(e, e');
    LittleEndian64Injective(w, w');
  }

  /** Under one root key, one signature certifies at most one key, epoch and window. */
  lemma OneSignatureOneCertificate(c: Suite, M: set<Bytes>, rootPk: Bytes32, x: EpochKeyCert, y: EpochKeyCert)
    requires SignaturesBind(c, M) && x.signature == y.signature
    requires VerifyEpochCert(c, rootPk, x).Ok? && VerifyEpochCert(c, rootPk, y).Ok?
    requires CertMessage(x.epochPk, x.epoch, x.validityWindow) in M
    requires CertMessage(y.epochPk, y.epoch, y.validityWindow) in M
    ensures x == y
  {
    hide CertMessage;
    CertMessageBinds(x.epochPk, x.epoch, x.validityWindow, y.epochPk, y.epoch, y.validityWindow);
  }

  /** An issuance signature names the capability, the authority root and the epoch. */
  lemma IssuanceMessageBinds(l: Bytes32, r: Bytes32, e: u64, l': Bytes32, r': Bytes32, e': u64)
    requires IssuanceMessage(l, r, e) == IssuanceMessage(l', r', e')
    ensures l == l' && r == r' && e == e'
  {
    var x := l + r + LittleEndian(e, 8);
    var y := l' + r' + LittleEndian(e', 8);
    assert x == y;
    assert x[..32] == l && x[32..64] == r && x[64..] == LittleEndian(e, 8);
    assert y[..32] == l' && y[32..64] == r' && y[64..] == LittleEndian(e', 8);
    LittleEndian64Injective(e, e');
  }

  // ----- validation

  predicate ParentStampWellFormed(cap: Capability) {
    cap.delegationDepth > 0 <==> cap.parentStamp != ZERO
  }

  /** The request-side checks at the end of `validate_capability`. */
  predicate Grants(cap: Capability, state: AuthorityState, req: OpenRequest) {
    && cap.objectId == req.objectId
    && cap.rights.ContainsAll(req.requiredRights)
    && cap.policyHash == req.policyHash
    && cap.epochStart <= req.epoch <= cap.epochEnd
    && req.epoch == state.epoch
  }

  /** What a capability is granted, right by right. */
  lemma GrantsIff(cap: Capability, state: AuthorityState, req: OpenRequest)
    ensures Grants(cap, state, req) <==>
      && req.objectId == cap.objectId && req.policyHash == cap.policyHash
      && req.epoch == state.epoch && cap.epochStart <= state.epoch <= cap.epochEnd
      && CoversBits(cap.rights.bits, req.requiredRights.bits, 16)
  {
    hide Covers, CoversBits;
    ContainsAllIff(cap.rights, req.requiredRights);
  }

  function ValidateCapability(
      c: Suite, cap: Capability, proof: CapabilityProof, state: AuthorityState, req: OpenRequest): (r: Result<()>)
    ensures r.Err? ==> r.error == InvalidCapability
  {
    if !ParentStampWellFormed(cap) then Err(InvalidCapability)
    else if VerifyInclusion(c.hash, cap, proof.inclusion, state.authorityRoot).Err? then Err(InvalidCapability)
    else if proof.nonRevocation.stamp != CapabilityStamp(c.hash, cap, state.authorityId) then Err(InvalidCapability)
    else if VerifyNonRevocation(c.hash, proof.nonRevocation, state.revocationRoot, state.revocationCount).Err?
    then Err(InvalidCapability)
    else if
      VerifyIssuance(c, cap, state.authorityRoot, proof.issuance.epochCert.epoch, proof.issuance, state.rootPk).Err?
    then Err(InvalidCapability)
    else if !Grants(cap, state, req) then Err(InvalidCapability)
    else Ok(())
  }

  // ----- delegation

  const MAX_DELEGATION_DEPTH: u64 := 255

  datatype Delegation = Delegation(
    state: AuthorityState,
    subject: Bytes,
    rights: Rights,
    epochStart: u64,
    epochEnd: u64,
    nonce: Bytes16)

  function DelegateCapability(c: Suite, parent: Capability, d: Delegation): Result<Capability> {
    if !parent.rights.ContainsAll(DELEGATE) then Err(InvalidCapability)
    else if !parent.rights.ContainsAll(d.rights) then Err(InvalidCapability)
    else if d.epochStart < parent.epochStart || d.epochEnd > parent.epochEnd then Err(InvalidCapability)
    else if d.epochStart > d.epochEnd then Err(InvalidCapability)
    else if parent.delegationDepth >= MAX_DELEGATION_DEPTH then Err(InvalidCapability)
    else Ok(Capability(
      parent.version, d.subject, parent.objectId, d.rights, parent.policyHash, d.epochStart, d.epochEnd,
      parent.delegationDepth + 1, CapabilityStamp(c.hash, parent, d.state.authorityId), d.nonce))
  }

  /** The rules of delegation, right by right. */
  ghost predicate MayDelegate(parent: Capability, d: Delegation) {
    && HasBit(parent.rights.bits, 5)
    && CoversBits(parent.rights.bits, d.rights.bits, 16)
    && parent.epochStart <= d.epochStart <= d.epochEnd <= parent.epochEnd
    && parent.delegationDepth < 255
  }

  /** Delegation succeeds exactly under its rules, and then hands on exactly what was asked for. */
  lemma DelegationSucceedsIff(c: Suite, parent: Capability, d: Delegation)
    ensures DelegateCapability(c, parent, d).Ok? <==> MayDelegate(parent, d)
    ensures DelegateCapability(c, parent, d).Err? ==> DelegateCapability(c, parent, d).error == InvalidCapability
    ensures MayDelegate(parent, d) ==>
      var child := DelegateCapability(c, parent, d).value;
      && child.subject == d.subject && child.nonce == d.nonce && child.rights == d.rights
      && child.epochStart == d.epochStart && child.epochEnd == d.epochEnd
      && child.version == parent.version && child.objectId == parent.objectId
      && child.policyHash == parent.policyHash && child.delegationDepth == parent.delegationDepth + 1
      && child.parentStamp == CapabilityStamp(c.hash, parent, d.state.authorityId)
  {
    hide CapabilityStamp, Covers, HasBit, CoversBits;
    ContainsAllIff(parent.rights, d.rights);
    DelegateIsBitFive(parent.rights);
  }

  /** What one delegation asks for covers a request. */
  predicate Asks(d: Delegation, req: OpenRequest) {
    d.rights.ContainsAll(req.requiredRights) && d.epochStart <= req.epoch <= d.epochEnd
  }

  /** A child is granted a request exactly when its parent is and the delegation asked for it. */
  lemma ChildGrantsIff(c: Suite, parent: Capability, d: Delegation, state: AuthorityState, req: OpenRequest)
    requires DelegateCapability(c, parent, d).Ok?
    ensures Grants(DelegateCapability(c, parent, d).value, state, req) <==> Grants(parent, state, req) && Asks(d, req)
  {
    hide CapabilityStamp, Covers;
    if d.rights.ContainsAll(req.requiredRights) {
      CoversIsTransitive(parent.rights.bits, d.rights.bits, req.requiredRights.bits, 16);
    }
  }

  /** A delegated capability has a well-formed parent stamp exactly when that stamp is not the reserved one. */
  lemma DelegatedIsWellFormedIff(c: Suite, parent: Capability, d: Delegation)
    requires DelegateCapability(c, parent, d).Ok?
    ensures ParentStampWellFormed(DelegateCapability(c, parent, d).value)
      <==> CapabilityStamp(c.hash, parent, d.state.authorityId) != ZERO
  {
    hide CapabilityStamp, Covers;
  }

  /** Passing a delegated capability off as a root one, or cutting its parent, never validates. */
  lemma StrippedDelegationIsRejected(
      c: Suite, parent: Capability, d: Delegation, proof: CapabilityProof, state: AuthorityState, req: OpenRequest)
    requires DelegateCapability(c, parent, d).Ok? && CapabilityStamp(c.hash, parent, d.state.authorityId) != ZERO
    ensures var child := DelegateCapability(c, parent, d).value;
      && ValidateCapability(c, child.(delegationDepth := 0), proof, state, req).Err?
      && ValidateCapability(c, child.(parentStamp := ZERO), proof, state, req).Err?
  {
    hide CapabilityStamp, Covers, VerifyInclusion, VerifyNonRevocation, VerifyIssuance, Grants;
  }

  /** `chain[i + 1]` was delegated from `chain[i]`. */
  ghost predicate DelegationChain(c: Suite, chain: seq<Capability>, steps: seq<Delegation>) {
    && |chain| == |steps| + 1
    && forall i :: 0 <= i < |steps| ==> DelegateCapability(c, chain[i], steps[i]) == Ok(chain[i + 1])
  }

  ghost predicate Attenuates(ancestor: Capability, descendant: Capability) {
    && ancestor.rights.ContainsAll(descendant.rights)
    && ancestor.epochStart <= descendant.epochStart && descendant.epochEnd <= ancestor.epochEnd
    && descendant.objectId == ancestor.objectId
    && descendant.policyHash == ancestor.policyHash
  }

  /**
    Down a chain of any length, every descendant is at most its ancestor, every proper
    ancestor could delegate, depth counts the steps and never passes 255, and each
    delegated link names its parent.
   */
  lemma {:induction false} DelegationAttenuates(
      c: Suite, chain: seq<Capability>, steps: seq<Delegation>, i: nat, j: nat)
    requires DelegationChain(c, chain, steps) && i <= j < |chain|
    ensures Attenuates(chain[i], chain[j])
    ensures chain[j].delegationDepth == chain[i].delegationDepth + (j - i)
    ensures i < j ==>
      && chain[i].rights.ContainsAll(DELEGATE) && chain[j].delegationDepth <= MAX_DELEGATION_DEPTH
      && chain[j].epochStart <= chain[j].epochEnd
      && chain[j].parentStamp == CapabilityStamp(c.hash, chain[j - 1], steps[j - 1].state.authorityId)
      && chain[j].rights == steps[j - 1].rights && chain[j].subject == steps[j - 1].subject
      && chain[j].nonce == steps[j - 1].nonce && chain[j].version == chain[i].version
    decreases j - i
  {
    hide CapabilityStamp, Covers;
    CoversIsReflexive(chain[i].rights.bits, 16);
    if i < j {
      DelegationAttenuates(c, chain, steps, i, j - 1);
      assert DelegateCapability(c, chain[j - 1], steps[j - 1]) == Ok(chain[j]);
      CoversIsTransitive(chain[i].rights.bits, chain[j - 1].rights.bits, chain[j].rights.bits, 16);
    }
  }

  /** What attenuation is for: whatever a descendant is granted, every ancestor is granted. */
  lemma DelegationGrantsNothingNew(
      c: Suite, chain: seq<Capability>, steps: seq<Delegation>, i: nat, j: nat, state: AuthorityState, req: OpenRequest)
    requires DelegationChain(c, chain, steps) && i <= j < |chain| && Grants(chain[j], state, req)
    ensures Grants(chain[i], state, req)
  {
    hide DelegationChain, Covers;
    DelegationAttenuates(c, chain, steps, i, j);
    CoversIsTransitive(chain[i].rights.bits, chain[j].rights.bits, req.requiredRights.bits, 16);
  }

  /** The whole chain decides: its end grants a request exactly when the root does and every step asked for it. */
  lemma {:induction false} DescendantGrantsIff(
      c: Suite, chain: seq<Capability>, steps: seq<Delegation>, j: nat, state: AuthorityState, req: OpenRequest)
    requires DelegationChain(c, chain, steps) && j < |chain|
    ensures Grants(chain[j], state, req) <==>
      Grants(chain[0], state, req) && forall k :: 0 <= k < j ==> Asks(steps[k], req)
  {
    hide Grants, Asks, DelegateCapability;
    if j > 0 {
      DescendantGrantsIff(c, chain, steps, j - 1, state, req);
      assert DelegateCapability(c, chain[j - 1], steps[j - 1]) == Ok(chain[j]);
      ChildGrantsIff(c, chain[j - 1], steps[j - 1], state, req);
    }
  }

  lemma {:induction false} CoversIsTransitive(a: nat, b: nat, d: nat, width: nat)
    requires Covers(a, b, width) && Covers(b, d, width)
    ensures Covers(a, d, width)
    decreases width
  {
    if width > 0 {
      CoversIsTransitive(a / 2, b / 2, d / 2, width - 1);
    }
  }

  lemma {:induction false} CoversIsReflexive(a: nat, width: nat)
    ensures Covers(a, a, width)
    decreases width
  {
    if width > 0 {
      CoversIsReflexive(a / 2, width - 1);
    }
  }
}
