/**
  What an opened object is bound to: the associated data and the context hash of
  src/kyriotes_csk2/engine.rs and model.rs, under ideal encryption.
 */
module Binding {
  import opened Octets
  import opened Codec
  import opened Merkle
  import opened Model
  import opened Crypto
  import opened Authority
  import opened Sealing
  import opened Rewrapping

  lemma AuthorityAadInjective(
      a: SealedObject, s: AuthorityState, ctxA: Bytes32, ccA: Bytes32, cpA: Bytes,
      b: SealedObject, t: AuthorityState, ctxB: Bytes32, ccB: Bytes32, cpB: Bytes)
    requires AuthorityAad(a, s, ctxA, ccA, cpA) == AuthorityAad(b, t, ctxB, ccB, cpB)
    requires Framed(a.objectId) && Framed(b.objectId) && Framed(cpA) && Framed(cpB)
    ensures a.objectId == b.objectId && a.requiredRights == b.requiredRights && a.policyHash == b.policyHash
    ensures a.temporalPolicy == b.temporalPolicy
    ensures s.epoch == t.epoch && s.authorityRoot == t.authorityRoot && s.revocationRoot == t.revocationRoot
    ensures s.transparencyRoot == t.transparencyRoot
    ensures ctxA == ctxB && ccA == ccB && cpA == cpB
  {
    hide PutU64, PutBytes, PutRights, PutTemporalPolicy, TakeU64, TakeBytesLimited, TakeFixed, TakeText;
    hide TakeRights, TakeTemporalPolicy, ValidUtf8;
  }

  lemma PayloadAadInjective(a: SealedObject, b: SealedObject)
    requires PayloadAad(a) == PayloadAad(b) && Framed(a.objectId) && Framed(b.objectId)
    ensures a.sealEpoch == b.sealEpoch
  {
    hide PutU64, PutBytes, PutRights, TakeU64, TakeBytesLimited, TakeFixed, TakeText, TakeRights, ValidUtf8;
  }

  /** Everything that a context names is the same. */
  ghost predicate SameContext(
      a: SealedObject, s: AuthorityState, stampA: Bytes32, b: SealedObject, t: AuthorityState, stampB: Bytes32)
  {
    && a.objectId == b.objectId && a.requiredRights == b.requiredRights && a.policyHash == b.policyHash
    && a.temporalPolicy == b.temporalPolicy && BoundAlike(s, t) && stampA == stampB
  }

  /** The states agree on everything that a wrapper's associated data and context name. */
  ghost predicate BoundAlike(a: AuthorityState, b: AuthorityState) {
    && a.epoch == b.epoch && a.authorityId == b.authorityId && a.authorityRoot == b.authorityRoot
    && a.revocationRoot == b.revocationRoot && a.transparencyRoot == b.transparencyRoot
  }

  lemma ContextInputInjective(
      a: SealedObject, s: AuthorityState, stampA: Bytes32, b: SealedObject, t: AuthorityState, stampB: Bytes32)
    requires ContextInput(a.objectId, a.requiredRights, a.policyHash, s, stampA, a.temporalPolicy)
      == ContextInput(b.objectId, b.requiredRights, b.policyHash, t, stampB, b.temporalPolicy)
    requires Framed(a.objectId) && Framed(b.objectId) && Framed(s.authorityId) && Framed(t.authorityId)
    ensures SameContext(a, s, stampA, b, t, stampB)
  {
    hide PutU64, PutBytes, PutRights, PutTemporalPolicy, TakeU64, TakeBytesLimited, TakeFixed, TakeText;
    hide TakeRights, TakeTemporalPolicy, ValidUtf8;
  }

  /** Lengths that the associated data can carry without wrapping; every decoded object meets them. */
  ghost predicate BindableObject(o: SealedObject) {
    Framed(o.objectId) && forall w :: w in o.wrappers ==> Framed(w.kemCtPq)
  }

  /** The context of an open is among the hashed strings. */
  ghost predicate ContextWithin(Q: set<Bytes>, o: SealedObject, state: AuthorityState, stamp: Bytes32) {
    && Framed(o.objectId) && Framed(state.authorityId)
    && ContextInput(o.objectId, o.requiredRights, o.policyHash, state, stamp, o.temporalPolicy) in Q
  }

  /** Context hashes agree exactly when the contexts do: object, rights, policies, state and stamp. */
  lemma ContextsAgreeIff(
      c: Suite, Q: set<Bytes>, a: SealedObject, s: AuthorityState, stampA: Bytes32,
      b: SealedObject, t: AuthorityState, stampB: Bytes32)
    requires CollisionFree(c.hash, Q) && ContextWithin(Q, a, s, stampA) && ContextWithin(Q, b, t, stampB)
    ensures Context(c, a, s, stampA) == Context(c, b, t, stampB) <==> SameContext(a, s, stampA, b, t, stampB)
  {
    if Context(c, a, s, stampA) == Context(c, b, t, stampB) {
      hide ContextInput;
      ContextInputInjective(a, s, stampA, b, t, stampB);
    }
  }

  /** If a made wrapper's ciphertext unwraps elsewhere, everything its associated data names is the same there. */
  lemma UnwrapBinds(
      c: Suite, Q: set<Bytes>, o: SealedObject, cap: Capability, dek: Bytes32, m: Making,
      o2: SealedObject, cap2: Capability, state2: AuthorityState, sk: RecipientSecretKey, w2: AuthorityWrapper)
    requires AeadBinds(c) && CollisionFree(c.hash, Q)
    requires ContextWithin(Q, o, m.state, CapabilityStamp(c.hash, cap, m.state.authorityId))
    requires ContextWithin(Q, o2, state2, CapabilityStamp(c.hash, cap2, state2.authorityId))
    requires Framed(MakeWrapper(c, o, cap, dek, m).kemCtPq) && Framed(w2.kemCtPq)
    requires w2.wrappedDek == MakeWrapper(c, o, cap, dek, m).wrappedDek
    requires UnwrapDek(c, sk, o2, cap2, state2, w2).Ok?
    ensures UnwrapDek(c, sk, o2, cap2, state2, w2).value == dek
    ensures o2.objectId == o.objectId && o2.requiredRights == o.requiredRights && o2.policyHash == o.policyHash
    ensures o2.temporalPolicy == o.temporalPolicy
    ensures BoundAlike(state2, m.state)
    ensures CapabilityStamp(c.hash, cap2, state2.authorityId) == CapabilityStamp(c.hash, cap, m.state.authorityId)
    ensures w2.(transparencyProof := m.transparencyProof) == MakeWrapper(c, o, cap, dek, m)
  {
    hide Encapsulate, Decapsulate, DeriveKek, CapabilityStamp, AuthorityAad, ContextInput;
    var stamp := CapabilityStamp(c.hash, cap, m.state.authorityId);
    var stamp2 := CapabilityStamp(c.hash, cap2, state2.authorityId);
    var ctx, ctx2 := Context(c, o, m.state, stamp), Context(c, o2, state2, stamp2);
    var e := Encapsulate(c, m.pk, m.ephemeral, m.coins);
    AuthorityAadInjective(o, m.state, ctx, e.ctClassical, e.ctPq, o2, state2, ctx2, w2.kemCtClassical, w2.kemCtPq);
    ContextInputInjective(o, m.state, stamp, o2, state2, stamp2);
  }

  /** The hashed and derived strings of making a wrapper and of unwrapping one elsewhere are among the queries. */
  ghost predicate KeysWithin(
      c: Suite, Q: set<Bytes>, K: set<(Bytes32, Bytes, Bytes)>, o: SealedObject, cap: Capability, m: Making,
      o2: SealedObject, cap2: Capability, state2: AuthorityState, sk: RecipientSecretKey, w2: AuthorityWrapper)
  {
    && MakingQuery(c, o, cap, m) in K
    && KekQuery(c, Decapsulate(c, sk, w2.kemCtClassical, w2.kemCtPq), state2,
                Context(c, o2, state2, CapabilityStamp(c.hash, cap2, state2.authorityId)), o2.policyHash) in K
    && DigestInput(m.state, o.policyHash) in Q && DigestInput(state2, o2.policyHash) in Q
    && m.state.revocationCount < U64_SPAN && state2.revocationCount < U64_SPAN
  }

  /**
    The key that wraps binds more than the associated data: a made wrapper's ciphertext
    unwraps elsewhere only under a key that recovers the encapsulated secret, and only under
    a state with the same revocation count.
   */
  lemma UnwrapBindsKeyAndCount(
      c: Suite, Q: set<Bytes>, K: set<(Bytes32, Bytes, Bytes)>, o: SealedObject, cap: Capability, dek: Bytes32,
      m: Making, o2: SealedObject, cap2: Capability, state2: AuthorityState, sk: RecipientSecretKey,
      w2: AuthorityWrapper)
    requires AeadBinds(c) && CollisionFree(c.hash, Q) && KdfBinds(c, K)
    requires KeysWithin(c, Q, K, o, cap, m, o2, cap2, state2, sk, w2)
    requires w2.wrappedDek == MakeWrapper(c, o, cap, dek, m).wrappedDek
    requires UnwrapDek(c, sk, o2, cap2, state2, w2).Ok?
    ensures Decapsulate(c, sk, w2.kemCtClassical, w2.kemCtPq) == Encapsulate(c, m.pk, m.ephemeral, m.coins).secret
    ensures BoundAlike(state2, m.state) && state2.revocationCount == m.state.revocationCount
    ensures o2.policyHash == o.policyHash
  {
    hide Encapsulate, Decapsulate, DeriveKek, CapabilityStamp, AuthorityAad, Context, KekQuery, KdfBinds, DigestInput;
    var ctx := Context(c, o, m.state, CapabilityStamp(c.hash, cap, m.state.authorityId));
    var ctx2 := Context(c, o2, state2, CapabilityStamp(c.hash, cap2, state2.authorityId));
    KeksAgreeIff(c, K, Encapsulate(c, m.pk, m.ephemeral, m.coins).secret, m.state, ctx, o.policyHash,
                 Decapsulate(c, sk, w2.kemCtClassical, w2.kemCtPq), state2, ctx2, o2.policyHash);
    DigestInputInjective(m.state, o.policyHash, state2, o2.policyHash);
  }

  /**
    Field binding: an altered object that keeps the payload ciphertext and the selected
    wrapped key opens only if its header, its payload nonce and the selected wrapper, all
    but the transparency proof, equal the sealed ones. It opens only under the roots, epoch
    and authority that the wrapper was made for, and only with the sealing capability.
   */
  lemma FieldBinding(
      c: Suite, Q: set<Bytes>, v: StateVerifier, o: SealedObject, p: Provenance, i: nat,
      altered: SealedObject, sk: RecipientSecretKey, cap: Capability, proof: CapabilityProof, state: AuthorityState)
    requires Carries(c, o, p) && i < |p.makings| && BindableObject(o) && BindableObject(altered)
    requires AeadBinds(c) && CollisionFree(c.hash, Q)
    requires ContextWithin(Q, o, p.makings[i].state, CapabilityStamp(c.hash, p.cap, p.makings[i].state.authorityId))
    requires ContextWithin(Q, altered, state, CapabilityStamp(c.hash, cap, state.authorityId))
    requires Open(c, v, sk, altered, cap, proof, state).Ok?
    requires altered.payloadCiphertext == o.payloadCiphertext
    requires SelectWrapper(altered, state).value.wrappedDek == o.wrappers[i].wrappedDek
    ensures SameHeader(altered, o) && altered.payloadNonce == o.payloadNonce
    ensures SelectWrapper(altered, state).value.(transparencyProof := o.wrappers[i].transparencyProof) == o.wrappers[i]
    ensures BoundAlike(state, p.makings[i].state)
    ensures
      && StampsWithin(c.hash, Q, cap, state.authorityId)
      && StampsWithin(c.hash, Q, p.cap, p.makings[i].state.authorityId)
      ==> cap == p.cap
    ensures Open(c, v, sk, altered, cap, proof, state).value == p.message
  {
    hide ValidateCapability, UnwrapDek, MakeWrapper, PayloadAad, CapabilityStamp, ContextWithin, FindWrapper;
    hide CollisionFree, StampsWithin, BoundAlike;
    var w := SelectWrapper(altered, state).value;
    var m := p.makings[i];
    WrapperProof(c, o, p.cap, p.dek, m);
    assert o.wrappers[i] in o.wrappers && w in altered.wrappers;
    UnwrapBinds(c, Q, o, p.cap, p.dek, m, altered, cap, state, sk, w);
    PayloadAadInjective(o, altered);
    if StampsWithin(c.hash, Q, cap, state.authorityId) && StampsWithin(c.hash, Q, p.cap, m.state.authorityId) {
      StampIdentifiesCapability(c.hash, Q, cap, state.authorityId, p.cap, m.state.authorityId);
    }
  }

  /** The fields outside that list are bound by nothing: changing them never changes what opening returns. */
  lemma OtherFieldsAreUnbound(
      c: Suite, v: StateVerifier, o: SealedObject, sk: RecipientSecretKey, cap: Capability, proof: CapabilityProof,
      state: AuthorityState, version: u16, suite: Bytes, authorityRoot: Bytes32, revocationRoot: Bytes32)
    ensures var changed :=
        o.(version := version, suite := suite, authorityRoot := authorityRoot, revocationRoot := revocationRoot);
      Open(c, v, sk, changed, cap, proof, state) == Open(c, v, sk, o, cap, proof, state)
  {
    hide ValidateCapability, UnwrapDek, PayloadAad, FindWrapper;
    var changed :=
      o.(version := version, suite := suite, authorityRoot := authorityRoot, revocationRoot := revocationRoot);
    if SelectWrapper(o, state).Ok? {
      HeaderDecidesOpening(c, sk, o, changed, cap, state, SelectWrapper(o, state).value);
    }
  }

  lemma HeaderDecidesOpening(
      c: Suite, sk: RecipientSecretKey, a: SealedObject, b: SealedObject, cap: Capability,
      state: AuthorityState, w: AuthorityWrapper)
    requires SameHeader(a, b)
    ensures UnwrapDek(c, sk, a, cap, state, w) == UnwrapDek(c, sk, b, cap, state, w)
    ensures PayloadAad(a) == PayloadAad(b)
  {
    hide DeriveKek, Decapsulate, CapabilityStamp, ContextInput;
    SameAad(a, b, state, w);
  }

  lemma SameAad(a: SealedObject, b: SealedObject, state: AuthorityState, w: AuthorityWrapper)
    requires SameHeader(a, b)
    ensures forall ctx ::
      AuthorityAad(a, state, ctx, w.kemCtClassical, w.kemCtPq)
      == AuthorityAad(b, state, ctx, w.kemCtClassical, w.kemCtPq)
  {
  }
}
