/**
  The byte layouts that other implementations have to match, written out flat, and the
  separation of the domains that the crate hashes and signs in. Everything here is stated
  apart from the readers: a writer and a reader that both swapped two fields would still
  invert each other, and would fail here.
 */
module Formats {
  import opened Octets
  import opened Policy
  import opened Codec
  import opened Merkle
  import opened Model
  import opened Crypto
  import opened Authority
  import opened ChainHash
  import opened Lifecycle
  import opened Sealing
  import opened Wire
  import Tsig
  import Verifier

  // ----- numbers and fields

  /** Numbers are written least significant byte first. */
  lemma LowByteFirst(low: Byte, high: nat, n: nat)
    ensures LittleEndian(low + 0x100 * high, n + 1) == [low] + LittleEndian(high, n)
  {
    assert (low + 0x100 * high) % 0x100 == low && (low + 0x100 * high) / 0x100 == high;
  }

  /** A field of variable length: four bytes of length, then the bytes. */
  function Blob(x: Bytes): Bytes {
    LittleEndian(|x|, 4) + x
  }

  function Number16(v: u16): Bytes { LittleEndian(v, 2) }
  function Number32(v: u32): Bytes { LittleEndian(v, 4) }
  function Number64(v: u64): Bytes { LittleEndian(v, 8) }

  function PolicyBytes(p: TemporalPolicy): Bytes {
    match p
    case Historical(epoch) => [0x01] + Number64(epoch)
    case Current => [0x02]
    case Window(start, end) => [0x03] + (Number64(start) + Number64(end))
    case ResealRequired(after) => [0x04] + Number64(after)
  }

  lemma FieldsAreFlat()
    ensures forall v, t {:trigger PutU16(v, t)} :: PutU16(v, t) == Number16(v) + t
    ensures forall v, t {:trigger PutU32(v, t)} :: PutU32(v, t) == Number32(v) + t
    ensures forall v, t {:trigger PutU64(v, t)} :: PutU64(v, t) == Number64(v) + t
    ensures forall r, t {:trigger PutRights(r, t)} :: PutRights(r, t) == Number16(r.bits) + t
    ensures forall x, t {:trigger PutBytes(x, t)} :: Framed(x) ==> PutBytes(x, t) == Blob(x) + t
    ensures forall p, t {:trigger PutTemporalPolicy(p, t)} :: PutTemporalPolicy(p, t) == PolicyBytes(p) + t
  {
    hide LittleEndian;
    forall x: Bytes, t: Bytes | Framed(x)
      ensures PutBytes(x, t) == Blob(x) + t
    {
      assert Blob(x) + t == LittleEndian(|x|, 4) + (x + t);
    }
    forall p: TemporalPolicy, t: Bytes
      ensures PutTemporalPolicy(p, t) == PolicyBytes(p) + t
    {
      PolicyIsFlat(p, t);
    }
  }

  lemma PolicyIsFlat(p: TemporalPolicy, t: Bytes)
    ensures PutTemporalPolicy(p, t) == PolicyBytes(p) + t
  {
    hide LittleEndian, TakeTemporalPolicy, TakeU64;
    match p {
      case Historical(epoch) =>
        assert [0x01] + (Number64(epoch) + t) == [0x01] + Number64(epoch) + t;
      case Current =>
      case Window(start, end) =>
        assert [0x03] + (Number64(start) + (Number64(end) + t)) == [0x03] + (Number64(start) + Number64(end)) + t;
      case ResealRequired(after) =>
        assert [0x04] + (Number64(after) + t) == [0x04] + Number64(after) + t;
    }
  }

  // ----- the object on the wire

  function SiblingBytes(siblings: seq<Bytes32>): Bytes {
    if siblings == [] then [] else Blob(siblings[0]) + SiblingBytes(siblings[1..])
  }

  function WrapperBytes(w: AuthorityWrapper): Bytes
    requires EncodableWrapper(w)
  {
    Number64(w.epoch) + (Blob(w.kemCtClassical) + (Blob(w.kemCtPq) + (Blob(w.wrapNonce) + (Blob(w.wrappedDek)
    + (Blob(w.contextHash) + (Blob(w.capabilityStamp)
    + (Blob(w.transparencyProof.leafHash) + (Number64(w.transparencyProof.leafIndex)
    + (Number32(|w.transparencyProof.siblingHashes|) + SiblingBytes(w.transparencyProof.siblingHashes))))))))))
  }

  function WrapperListBytes(ws: seq<AuthorityWrapper>): Bytes
    requires forall w :: w in ws ==> EncodableWrapper(w)
  {
    if ws == [] then [] else WrapperBytes(ws[0]) + WrapperListBytes(ws[1..])
  }

  function ObjectBytes(o: SealedObject): Bytes
    requires Encodable(o)
  {
    Ascii("KCS2") + (Number16(o.version) + (Blob(o.suite) + (Blob(o.objectId) + (Number16(o.requiredRights.bits)
    + (Blob(o.policyHash) + (Number64(o.sealEpoch) + (PolicyBytes(o.temporalPolicy)
    + (Blob(o.authorityRoot) + (Blob(o.revocationRoot) + (Blob(o.payloadNonce) + (Blob(o.payloadCiphertext)
    + (Number32(|o.wrappers|) + WrapperListBytes(o.wrappers)))))))))))))
  }

  lemma {:induction false} SiblingsAreFlat(siblings: seq<Bytes32>)
    ensures PutSiblings(siblings, []) == SiblingBytes(siblings)
  {
    hide PutBytes, Blob;
    FieldsAreFlat();
    if siblings != [] {
      SiblingsAreFlat(siblings[1..]);
    }
  }

  lemma WrapperIsFlat(w: AuthorityWrapper)
    requires EncodableWrapper(w)
    ensures PutWrapper(w, []) == WrapperBytes(w)
  {
    hide PutBytes, PutU64, PutU32, Blob, Number64, Number32, PutSiblings, SiblingBytes, Low64, Low32;
    FieldsAreFlat();
    SiblingsAreFlat(w.transparencyProof.siblingHashes);
  }

  lemma {:induction false} WrappersAreFlat(ws: seq<AuthorityWrapper>)
    requires forall w :: w in ws ==> EncodableWrapper(w)
    ensures PutWrappers(ws, []) == WrapperListBytes(ws)
  {
    hide PutWrapper, WrapperBytes, EncodableWrapper;
    if ws != [] {
      WrapperIsFlat(ws[0]);
      WrappersAreFlat(ws[1..]);
      WrapperAppends(ws[0], [], PutWrappers(ws[1..], []));
      assert [] + PutWrappers(ws[1..], []) == PutWrappers(ws[1..], []);
    }
  }

  lemma MagicIsLetters()
    ensures MAGIC == Ascii("KCS2")
  {
  }

  /** The encoding is the flat layout: magic, header, payload, then each wrapper with its proof. */
  lemma EncodingIsFlat(o: SealedObject)
    requires Encodable(o)
    ensures Encode(o) == ObjectBytes(o)
  {
    hide PutBytes, PutU64, PutU32, PutU16, PutRights, PutTemporalPolicy, PutWrappers, Low32, EncodableWrapper;
    hide Blob, Number64, Number32, Number16, PolicyBytes, WrapperListBytes, Ascii, ValidUtf8;
    FieldsAreFlat();
    WrappersAreFlat(o.wrappers);
    MagicIsLetters();
  }

  // ----- what is hashed

  /** A node hashes its tag, its left child and its right child. */
  lemma NodeLayout(left: Bytes32, right: Bytes32)
    ensures NodeInput(left, right) == Ascii(NODE_TAG) + (left + right)
    ensures Ascii(NODE_TAG) == Ascii("KYRIOTES-CSK2-TRANSPARENCY-NODE-v1")
  {
  }

  lemma CapabilityLayout(cap: Capability)
    requires EncodableCapability(cap)
    ensures CapabilityLeafInput(cap) ==
      Ascii("KYRIOTES-CSK2-CAPABILITY-LEAF-v1")
      + (Number64(cap.version) + (Blob(cap.subject) + (Blob(cap.objectId) + (Number16(cap.rights.bits)
      + (Blob(cap.policyHash) + (Number64(cap.epochStart) + (Number64(cap.epochEnd) + (Number64(cap.delegationDepth)
      + (Blob(cap.parentStamp) + (Blob(cap.nonce) + []))))))))))
  {
    hide PutBytes, PutU64, PutRights, Blob, Number64, Number16, Ascii;
    FieldsAreFlat();
  }

  lemma StampLayout(leaf: Bytes32, authorityId: Bytes)
    ensures StampInput(leaf, authorityId) == Ascii("KYRIOTES-CSK2-CAPABILITY-STAMP-v2") + (leaf + authorityId)
  {
  }

  lemma TransparencyLeafLayout(state: AuthorityState)
    requires EncodableState(state)
    ensures TransparencyLeafInput(state) ==
      Ascii("KYRIOTES-CSK2-TRANSPARENCY-LEAF-v1")
      + (Blob(state.authorityRoot) + (Blob(state.revocationRoot) + (Number64(state.epoch)
      + (Blob(state.authorityId) + (Number64(state.revocationCount) + [])))))
  {
    hide PutBytes, PutU64, Blob, Number64, Ascii, Low64;
    FieldsAreFlat();
  }

  lemma ContextLayout(o: SealedObject, state: AuthorityState, stamp: Bytes32)
    requires Framed(o.objectId) && Framed(state.authorityId)
    ensures ContextInput(o.objectId, o.requiredRights, o.policyHash, state, stamp, o.temporalPolicy) ==
      Ascii("KYRIOTES-CSK2-CONTEXT-v1")
      + (Blob(o.objectId) + (Number16(o.requiredRights.bits) + (Blob(o.policyHash) + (Number64(state.epoch)
      + (Blob(state.authorityRoot) + (Blob(state.revocationRoot) + (Blob(state.transparencyRoot) + (Blob(stamp)
      + (Blob(state.authorityId) + (PolicyBytes(o.temporalPolicy) + []))))))))))
  {
    hide PutBytes, PutU64, PutRights, PutTemporalPolicy, Blob, Number64, Number16, PolicyBytes, Ascii;
    FieldsAreFlat();
  }

  lemma AuthorityAadLayout(
      o: SealedObject, state: AuthorityState, ctx: Bytes32, ctClassical: Bytes32, ctPq: Bytes)
    requires Framed(o.objectId) && Framed(ctPq)
    ensures AuthorityAad(o, state, ctx, ctClassical, ctPq) ==
      Ascii("KYRIOTES-CSK2-AUTHORITY-AAD-v2")
      + (Blob(o.objectId) + (Number16(o.requiredRights.bits) + (Blob(o.policyHash) + (Number64(state.epoch)
      + (Blob(state.authorityRoot) + (Blob(state.revocationRoot) + (Blob(state.transparencyRoot) + (Blob(ctx)
      + (PolicyBytes(o.temporalPolicy) + (Blob(ctClassical) + (Blob(ctPq) + [])))))))))))
  {
    hide PutBytes, PutU64, PutRights, PutTemporalPolicy, Blob, Number64, Number16, PolicyBytes, Ascii;
    FieldsAreFlat();
  }

  lemma PayloadAadLayout(o: SealedObject)
    requires Framed(o.objectId)
    ensures PayloadAad(o) ==
      Ascii("KYRIOTES-CSK2-PAYLOAD-AAD-v1")
      + (Blob(o.objectId) + (Number16(o.requiredRights.bits) + (Blob(o.policyHash) + (Number64(o.sealEpoch) + []))))
  {
    hide PutBytes, PutU64, PutRights, Blob, Number64, Number16, Ascii;
    FieldsAreFlat();
  }

  lemma ChainLayout(prev: Bytes32, l: Link)
    ensures LinkInput(prev, l) ==
      (if l.epoch == 0 then Ascii("KYRIOTES-CSK2-LOG-GENESIS-v1") else prev)
      + (l.authorityRoot + l.revocationRoot + Number64(l.epoch) + l.epochPk + l.rootSig)
  {
  }

  /** The shared secret hashes its mode's tag and the halves in order, classical first. */
  lemma SecretLayout(classical: Bytes32, ss: Bytes32)
    ensures SecretInput(classical, Some(ss)) == Ascii("KYRIOTES-CSK2-HYBRID-SECRET-v2") + (classical + ss)
    ensures SecretInput(classical, None) == Ascii("KYRIOTES-CSK2-CLASSICAL-SECRET-v1") + classical
  {
  }

  /** The wrapping key: salted with the digest, from secret and context, for the tagged context. */
  lemma WrappingKeyLayout(c: Suite, secret: Bytes32, s: AuthorityState, ctx: Bytes32, policyHash: Bytes32)
    requires s.revocationCount < U64_SPAN
    ensures DeriveKek(c, secret, s, ctx, policyHash) ==
      c.hkdf(c.hash(Ascii("KYRIOTES-CSK2-AUTHORITY-DIGEST-v1")
                    + (s.authorityRoot + s.revocationRoot + s.transparencyRoot + Number64(s.epoch) + policyHash
                       + s.authorityId + Number64(s.revocationCount))),
             secret + ctx, Ascii("KYRIOTES-CSK2-KEK-v1") + ctx)
  {
  }

  // ----- what is signed

  lemma SignedLayouts(pk: Bytes32, epoch: u64, window: u64, leaf: Bytes32, root: Bytes32, s: AuthorityState)
    ensures CertMessage(pk, epoch, window) ==
      Ascii("KYRIOTES-CSK2-EPOCH-KEY-v1") + (pk + Number64(epoch) + Number64(window))
    ensures IssuanceMessage(leaf, root, epoch) ==
      Ascii("KYRIOTES-CSK2-CAPABILITY-ISSUE-v1") + (leaf + root + Number64(epoch))
    ensures EpochRootMessage(s) == Ascii("KYRIOTES-CSK2-EPOCH-ROOT-v2")
      + (s.authorityRoot + s.revocationRoot + s.transparencyRoot + Number64(s.epoch) + s.prevEpochHash)
    ensures Tsig.SigningMessage(s) == Ascii("KYRIOTES-CSK2-TSIG-EPOCH-v2")
      + (s.authorityRoot + s.revocationRoot + s.transparencyRoot + Number64(s.epoch) + s.prevEpochHash)
  {
  }

  lemma StateMessageLayout(s: AuthorityState)
    requires EncodableState(s)
    ensures Verifier.StateMessage(s) ==
      Ascii("KYRIOTES-CSK2-AUTHORITY-STATE-SIG-v2")
      + (Blob(s.authorityRoot) + (Blob(s.revocationRoot) + (Blob(s.transparencyRoot) + (Number64(s.epoch)
      + (Blob(s.authorityId) + (Number64(s.revocationCount) + (Blob(s.prevEpochHash) + [])))))))
  {
    hide PutBytes, PutU64, Blob, Number64, Ascii, Low64;
    FieldsAreFlat();
  }

  // ----- domains

  /** Tags that differ somewhere keep what follows them apart. */
  lemma TagsSeparate(tag: string, body: Bytes, other: string, body': Bytes, i: nat)
    requires i < |tag| && i < |other| && (tag[i] as int) % 0x100 != (other[i] as int) % 0x100
    ensures Tagged(tag, body) != Tagged(other, body')
  {
    assert Tagged(tag, body)[i] == Ascii(tag)[i] && Tagged(other, body')[i] == Ascii(other)[i];
  }

  /** No message signed for one purpose is a message of another: certificate, issuance, epoch root, threshold, state. */
  lemma SignedDomainsAreSeparate(
      pk: Bytes32, e: u64, w: u64, leaf: Bytes32, root: Bytes32, e': u64,
      a: AuthorityState, b: AuthorityState, s: AuthorityState)
    ensures CertMessage(pk, e, w) !in
      {IssuanceMessage(leaf, root, e'), EpochRootMessage(a), Tsig.SigningMessage(b), Verifier.StateMessage(s)}
    ensures IssuanceMessage(leaf, root, e') !in
      {EpochRootMessage(a), Tsig.SigningMessage(b), Verifier.StateMessage(s)}
    ensures EpochRootMessage(a) !in {Tsig.SigningMessage(b), Verifier.StateMessage(s)}
    ensures Tsig.SigningMessage(b) != Verifier.StateMessage(s)
  {
    hide EpochFields, LittleEndian, Tagged, Verifier.SignedState;
    var cert, issue := pk + LittleEndian(e, 8) + LittleEndian(w, 8), leaf + root + LittleEndian(e', 8);
    var x, y, z := EpochFields(a), EpochFields(b), Verifier.SignedState(s);
    TagsSeparate(CERT_TAG, cert, ISSUE_TAG, issue, 14);
    TagsSeparate(CERT_TAG, cert, EPOCH_ROOT_TAG, x, 20);
    TagsSeparate(CERT_TAG, cert, Tsig.TSIG_TAG, y, 14);
    TagsSeparate(CERT_TAG, cert, Verifier.STATE_SIG_TAG, z, 14);
    TagsSeparate(ISSUE_TAG, issue, EPOCH_ROOT_TAG, x, 14);
    TagsSeparate(ISSUE_TAG, issue, Tsig.TSIG_TAG, y, 14);
    TagsSeparate(ISSUE_TAG, issue, Verifier.STATE_SIG_TAG, z, 14);
    TagsSeparate(EPOCH_ROOT_TAG, x, Tsig.TSIG_TAG, y, 14);
    TagsSeparate(EPOCH_ROOT_TAG, x, Verifier.STATE_SIG_TAG, z, 14);
    TagsSeparate(Tsig.TSIG_TAG, y, Verifier.STATE_SIG_TAG, z, 14);
  }

  /** Leaves, stamps and nodes of the two trees are never the same string. */
  lemma TreeDomainsAreSeparate(
      cap: Capability, leaf: Bytes32, id: Bytes, state: AuthorityState, left: Bytes32, right: Bytes32)
    ensures CapabilityLeafInput(cap) !in {StampInput(leaf, id), TransparencyLeafInput(state), NodeInput(left, right)}
    ensures StampInput(leaf, id) !in {TransparencyLeafInput(state), NodeInput(left, right)}
    ensures TransparencyLeafInput(state) != NodeInput(left, right)
  {
    hide CapabilityBody, StateBody, Tagged;
    NodeIsTagged(left, right);
    var node := left + right;
    TagsSeparate(CAPABILITY_LEAF_TAG, CapabilityBody(cap), CAPABILITY_STAMP_TAG, leaf + id, 25);
    TagsSeparate(CAPABILITY_LEAF_TAG, CapabilityBody(cap), TRANSPARENCY_LEAF_TAG, StateBody(state), 14);
    TagsSeparate(CAPABILITY_LEAF_TAG, CapabilityBody(cap), NODE_TAG, node, 14);
    TagsSeparate(CAPABILITY_STAMP_TAG, leaf + id, TRANSPARENCY_LEAF_TAG, StateBody(state), 14);
    TagsSeparate(CAPABILITY_STAMP_TAG, leaf + id, NODE_TAG, node, 14);
    TagsSeparate(TRANSPARENCY_LEAF_TAG, StateBody(state), NODE_TAG, node, 27);
  }

  lemma NodeIsTagged(left: Bytes32, right: Bytes32)
    ensures NodeInput(left, right) == Tagged(NODE_TAG, left + right)
  {
  }

  /** The two kinds of associated data never meet either. */
  lemma AadDomainsAreSeparate(
      o: SealedObject, state: AuthorityState, ctx: Bytes32, ctClassical: Bytes32, ctPq: Bytes, p: SealedObject)
    ensures AuthorityAad(o, state, ctx, ctClassical, ctPq) != PayloadAad(p)
  {
    hide AuthorityFields, PayloadFields, Tagged;
    TagsSeparate(AUTHORITY_AAD_TAG, AuthorityFields(o, state, ctx, ctClassical, ctPq),
                 PAYLOAD_AAD_TAG, PayloadFields(p), 14);
  }
}
