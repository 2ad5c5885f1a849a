/**
  The records of src/kyriotes_csk2/model.rs and the byte strings they hash.

  `revocationCount` and `leafIndex` are `u64` in the source. They only ever hold
  vector lengths and positions, so they are naturals here and are cut to 64 bits
  where they are encoded.
 */
module Model {
  import opened Octets
  import opened Policy
  import opened Codec
  import opened Merkle

  datatype Capability = Capability(
    version: u16,
    subject: Bytes,
    objectId: Bytes,
    rights: Rights,
    policyHash: Bytes32,
    epochStart: u64,
    epochEnd: u64,
    delegationDepth: u64,
    parentStamp: Bytes32,
    nonce: Bytes16)

  datatype AuthorityState = AuthorityState(
    authorityRoot: Bytes32,
    revocationRoot: Bytes32,
    transparencyRoot: Bytes32,
    epoch: u64,
    authorityId: Bytes,
    rootPk: Bytes32,
    revocationCount: nat,
    prevEpochHash: Bytes32)

  datatype TransparencyProof = TransparencyProof(
    leafHash: Bytes32,
    siblingHashes: seq<Bytes32>,
    leafIndex: nat)

  datatype OpenRequest = OpenRequest(
    objectId: Bytes,
    requiredRights: Rights,
    policyHash: Bytes32,
    epoch: u64)

  datatype AuthorityWrapper = AuthorityWrapper(
    epoch: u64,
    kemCtClassical: Bytes32,
    kemCtPq: Bytes,
    wrapNonce: Bytes12,
    wrappedDek: Bytes,
    contextHash: Bytes32,
    capabilityStamp: Bytes32,
    transparencyProof: TransparencyProof)

  datatype SealedObject = SealedObject(
    version: u16,
    suite: Bytes,
    objectId: Bytes,
    requiredRights: Rights,
    policyHash: Bytes32,
    sealEpoch: u64,
    temporalPolicy: TemporalPolicy,
    authorityRoot: Bytes32,
    revocationRoot: Bytes32,
    payloadNonce: Bytes12,
    payloadCiphertext: Bytes,
    wrappers: seq<AuthorityWrapper>)

  /** Lengths that a 32-bit length prefix can carry without wrapping. */
  predicate Framed(b: Bytes) {
    |b| < U32_SPAN
  }

  ghost predicate EncodableCapability(cap: Capability) {
    Framed(cap.subject) && Framed(cap.objectId)
  }

  ghost predicate EncodableState(state: AuthorityState) {
    Framed(state.authorityId) && state.revocationCount < U64_SPAN
  }

  // ----- what each hash binds

  function Tagged(tag: string, body: Bytes): (b: Bytes)
    ensures |b| >= |tag| && b[|tag|..] == body
  {
    Ascii(tag) + body
  }

  lemma DifferentTags(tag: string, other: string, body: Bytes, i: nat)
    requires i < |tag| && i < |other| && Ascii(tag)[i] != Ascii(other)[i]
    ensures !(Ascii(tag) <= Tagged(other, body))
  {
    assert Tagged(other, body)[i] == Ascii(other)[i];
  }

  const CAPABILITY_LEAF_TAG: string := "KYRIOTES-CSK2-CAPABILITY-LEAF-v1"
  const CAPABILITY_STAMP_TAG: string := "KYRIOTES-CSK2-CAPABILITY-STAMP-v2"
  const TRANSPARENCY_LEAF_TAG: string := "KYRIOTES-CSK2-TRANSPARENCY-LEAF-v1"
  const CONTEXT_TAG: string := "KYRIOTES-CSK2-CONTEXT-v1"

  function CapabilityBody(cap: Capability): Bytes {
    PutU64(cap.version,
    PutBytes(cap.subject,
    PutBytes(cap.objectId,
    PutRights(cap.rights,
    PutBytes(cap.policyHash,
    PutU64(cap.epochStart,
    PutU64(cap.epochEnd,
    PutU64(cap.delegationDepth,
    PutBytes(cap.parentStamp,
    PutBytes(cap.nonce, []))))))))))
  }

  function CapabilityLeafInput(cap: Capability): Bytes {
    Tagged(CAPABILITY_LEAF_TAG, CapabilityBody(cap))
  }

  function CapabilityLeaf(h: Hash, cap: Capability): Bytes32 {
    h(CapabilityLeafInput(cap))
  }

  /** Neither the epoch nor any root enters a stamp, so a stamp outlives epoch rotation. */
  function StampInput(leaf: Bytes32, authorityId: Bytes): Bytes {
    Tagged(CAPABILITY_STAMP_TAG, leaf + authorityId)
  }

  function CapabilityStamp(h: Hash, cap: Capability, authorityId: Bytes): Bytes32 {
    h(StampInput(CapabilityLeaf(h, cap), authorityId))
  }

  function StateBody(state: AuthorityState): Bytes {
    PutBytes(state.authorityRoot,
    PutBytes(state.revocationRoot,
    PutU64(state.epoch,
    PutBytes(state.authorityId,
    PutU64(Low64(state.revocationCount), [])))))
  }

  function TransparencyLeafInput(state: AuthorityState): Bytes {
    Tagged(TRANSPARENCY_LEAF_TAG, StateBody(state))
  }

  function TransparencyLeaf(h: Hash, state: AuthorityState): Bytes32 {
    h(TransparencyLeafInput(state))
  }

  /** What every signature over an epoch root covers, after its tag. */
  function EpochFields(state: AuthorityState): Bytes {
    state.authorityRoot + state.revocationRoot + state.transparencyRoot
    + LittleEndian(state.epoch, 8) + state.prevEpochHash
  }

  function ContextBody(
      objectId: Bytes, rights: Rights, policyHash: Bytes32,
      state: AuthorityState, stamp: Bytes32, policy: TemporalPolicy): Bytes
  {
    PutBytes(objectId,
    PutRights(rights,
    PutBytes(policyHash,
    PutU64(state.epoch,
    PutBytes(state.authorityRoot,
    PutBytes(state.revocationRoot,
    PutBytes(state.transparencyRoot,
    PutBytes(stamp,
    PutBytes(state.authorityId,
    PutTemporalPolicy(policy, []))))))))))
  }

  function ContextInput(
      objectId: Bytes, rights: Rights, policyHash: Bytes32,
      state: AuthorityState, stamp: Bytes32, policy: TemporalPolicy): Bytes
  {
    Tagged(CONTEXT_TAG, ContextBody(objectId, rights, policyHash, state, stamp, policy))
  }

  // ----- the encodings are injective

  lemma CapabilityLeafInputInjective(a: Capability, b: Capability)
    requires EncodableCapability(a) && EncodableCapability(b)
    requires CapabilityLeafInput(a) == CapabilityLeafInput(b)
    ensures a == b
  {
    assert CapabilityBody(a) == CapabilityBody(b);
  }

  lemma StampInputInjective(leafA: Bytes32, idA: Bytes, leafB: Bytes32, idB: Bytes)
    requires StampInput(leafA, idA) == StampInput(leafB, idB)
    ensures leafA == leafB && idA == idB
  {
    assert leafA + idA == leafB + idB;
    assert (leafA + idA)[..32] == leafA && (leafA + idA)[32..] == idA;
    assert (leafB + idB)[..32] == leafB && (leafB + idB)[32..] == idB;
  }

  /** States with the same transparency input agree on everything the log commits to. */
  ghost predicate SameCommitment(a: AuthorityState, b: AuthorityState) {
    && a.authorityRoot == b.authorityRoot
    && a.revocationRoot == b.revocationRoot
    && a.epoch == b.epoch
    && a.authorityId == b.authorityId
    && a.revocationCount == b.revocationCount
  }

  lemma TransparencyLeafInputInjective(a: AuthorityState, b: AuthorityState)
    requires EncodableState(a) && EncodableState(b)
    requires TransparencyLeafInput(a) == TransparencyLeafInput(b)
    ensures SameCommitment(a, b)
  {
    assert StateBody(a) == StateBody(b);
  }

  ghost predicate SameEpochRoot(a: AuthorityState, b: AuthorityState) {
    && a.authorityRoot == b.authorityRoot && a.revocationRoot == b.revocationRoot
    && a.transparencyRoot == b.transparencyRoot && a.epoch == b.epoch && a.prevEpochHash == b.prevEpochHash
  }

  lemma EpochFieldsBind(a: AuthorityState, b: AuthorityState)
    requires EpochFields(a) == EpochFields(b)
    ensures SameEpochRoot(a, b)
  {
    hide LittleEndian;
    EpochFieldSlices(a);
    EpochFieldSlices(b);
    LittleEndian64Injective(a.epoch, b.epoch);
  }

  lemma EpochFieldSlices(s: AuthorityState)
    ensures var x := EpochFields(s);
      && |x| == 136 && x[..32] == s.authorityRoot && x[32..64] == s.revocationRoot && x[64..96] == s.transparencyRoot
      && x[96..104] == LittleEndian(s.epoch, 8) && x[104..] == s.prevEpochHash
  {
    hide LittleEndian;
  }

  lemma TagLetters()
    ensures |NODE_TAG| == 34 && NODE_TAG[14] == 'T' && NODE_TAG[27] == 'N'
    ensures |CAPABILITY_LEAF_TAG| == 32 && CAPABILITY_LEAF_TAG[14] == 'C'
    ensures |TRANSPARENCY_LEAF_TAG| == 34 && TRANSPARENCY_LEAF_TAG[27] == 'L'
  {
  }

  /** Domain separation: no leaf input can be read as a node input. */
  lemma CapabilityLeafIsNotANode(cap: Capability)
    ensures !(Ascii(NODE_TAG) <= CapabilityLeafInput(cap))
  {
    hide CapabilityBody;
    TagLetters();
    DifferentTags(NODE_TAG, CAPABILITY_LEAF_TAG, CapabilityBody(cap), 14);
  }

  lemma TransparencyLeafIsNotANode(state: AuthorityState)
    ensures !(Ascii(NODE_TAG) <= TransparencyLeafInput(state))
  {
    hide StateBody;
    TagLetters();
    DifferentTags(NODE_TAG, TRANSPARENCY_LEAF_TAG, StateBody(state), 27);
  }
}
