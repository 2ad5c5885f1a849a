/**
  Sealing, opening, rewrapping and resealing objects (src/kyriotes_csk2/engine.rs and
  kem.rs). Nonces, data keys and KEM randomness are arguments.
 */
module Sealing {
  import opened Octets
  import opened Policy
  import opened Codec
  import opened Merkle
  import opened Model
  import opened Crypto
  import opened Authority

  // ----- hybrid key encapsulation

  datatype RecipientPublicKey = RecipientPublicKey(classical: Bytes32, pq: Option<Bytes>)

  datatype RecipientSecretKey = RecipientSecretKey(classical: Bytes32, pq: Option<Bytes64>)

  const HYBRID_TAG: string := "KYRIOTES-CSK2-HYBRID-SECRET-v2"
  const CLASSICAL_TAG: string := "KYRIOTES-CSK2-CLASSICAL-SECRET-v1"

  /** What the shared secret is hashed from; the tag tells the two modes apart. */
  function SecretInput(classical: Bytes32, pq: Option<Bytes32>): Bytes {
    match pq
    case Some(ss) => Tagged(HYBRID_TAG, classical + ss)
    case None => Tagged(CLASSICAL_TAG, classical)
  }

  function HybridSecret(c: Suite, classical: Bytes32, pq: Option<Bytes32>): Bytes32 {
    c.hash(SecretInput(classical, pq))
  }

  /** The input names the mode and both halves: a hybrid secret is never a classical-only one. */
  lemma SecretInputInjective(a: Bytes32, x: Option<Bytes32>, b: Bytes32, y: Option<Bytes32>)
    requires SecretInput(a, x) == SecretInput(b, y)
    ensures a == b && x == y
  {
    assert SecretInput(a, x)[14] == (if x.Some? then 'H' else 'C') as int;
    assert SecretInput(b, y)[14] == (if y.Some? then 'H' else 'C') as int;
    if x.Some? {
      assert (a + x.value)[..32] == a && (a + x.value)[32..] == x.value;
      assert (b + y.value)[..32] == b && (b + y.value)[32..] == y.value;
    }
  }

  /** Secrets agree exactly when the mode and both halves do. */
  lemma SecretsAgreeIff(c: Suite, Q: set<Bytes>, a: Bytes32, x: Option<Bytes32>, b: Bytes32, y: Option<Bytes32>)
    requires CollisionFree(c.hash, Q) && SecretInput(a, x) in Q && SecretInput(b, y) in Q
    ensures HybridSecret(c, a, x) == HybridSecret(c, b, y) <==> a == b && x == y
  {
    hide SecretInput;
    if HybridSecret(c, a, x) == HybridSecret(c, b, y) {
      SecretInputInjective(a, x, b, y);
    }
  }

  datatype Encapsulation = Encapsulation(ctClassical: Bytes32, ctPq: Bytes, secret: Bytes32)

  /** The post-quantum part is skipped, leaving an empty ciphertext, when the key is absent or malformed. */
  function EncapsulatePq(c: Suite, ek: Option<Bytes>, coins: Bytes32): (Bytes, Bytes32) {
    if ek.Some? && |ek.value| == KEM_EK_BYTES && c.kemEncaps(ek.value, coins).Some?
    then c.kemEncaps(ek.value, coins).value
    else ([], ZERO)
  }

  function DecapsulatePq(c: Suite, dk: Option<Bytes64>, ctPq: Bytes): Bytes32 {
    if dk.Some? && |ctPq| == KEM_CT_BYTES then c.kemDecaps(dk.value, ctPq) else ZERO
  }

  function Encapsulate(c: Suite, pk: RecipientPublicKey, ephemeral: Bytes32, coins: Bytes32): Encapsulation {
    var (ctPq, ssPq) := EncapsulatePq(c, pk.pq, coins);
    Encapsulation(c.dhPk(ephemeral), ctPq,
      HybridSecret(c, c.dh(ephemeral, pk.classical), if ctPq == [] then None else Some(ssPq)))
  }

  function Decapsulate(c: Suite, sk: RecipientSecretKey, ctClassical: Bytes32, ctPq: Bytes): Bytes32 {
    HybridSecret(c, c.dh(sk.classical, ctClassical), if ctPq == [] then None else Some(DecapsulatePq(c, sk.pq, ctPq)))
  }

  /** The post-quantum half is used whenever there is a key for it, and left out, with its secret, otherwise. */
  lemma EncapsulationUsesWhatItCan(c: Suite, pk: RecipientPublicKey, ephemeral: Bytes32, coins: Bytes32)
    ensures var e, usable := Encapsulate(c, pk, ephemeral, coins),
        pk.pq.Some? && |pk.pq.value| == KEM_EK_BYTES && c.kemEncaps(pk.pq.value, coins).Some?;
      && e.ctClassical == c.dhPk(ephemeral)
      && (!usable ==> e.ctPq == [] && e.secret == HybridSecret(c, c.dh(ephemeral, pk.classical), None))
      && (usable && c.kemEncaps(pk.pq.value, coins).value.0 != [] ==>
          && e.ctPq == c.kemEncaps(pk.pq.value, coins).value.0
          && e.secret == HybridSecret(
            c, c.dh(ephemeral, pk.classical), Some(c.kemEncaps(pk.pq.value, coins).value.1)))
  {
    hide HybridSecret;
  }

  /** A post-quantum key of the right size that the KEM takes. */
  ghost predicate UsableKey(c: Suite, ek: Bytes) {
    |ek| == KEM_EK_BYTES && exists coins :: c.kemEncaps(ek, coins).Some?
  }

  /** Nothing is asked of a post-quantum key that encapsulation skips. */
  ghost predicate KeysMatch(c: Suite, pk: RecipientPublicKey, sk: RecipientSecretKey) {
    && pk.classical == c.dhPk(sk.classical)
    && (pk.pq.Some? && UsableKey(c, pk.pq.value) ==> sk.pq.Some? && pk.pq.value == c.kemEk(sk.pq.value))
  }

  /** Both ends derive the same secret, with the post-quantum key present, absent or malformed. */
  lemma KemRoundTrip(c: Suite, pk: RecipientPublicKey, sk: RecipientSecretKey, ephemeral: Bytes32, coins: Bytes32)
    requires KemsAgree(c) && KeysMatch(c, pk, sk)
    ensures var e := Encapsulate(c, pk, ephemeral, coins);
      Decapsulate(c, sk, e.ctClassical, e.ctPq) == e.secret
  {
    hide HybridSecret;
    assert pk.pq.Some? && |pk.pq.value| == KEM_EK_BYTES && c.kemEncaps(pk.pq.value, coins).Some? ==>
      UsableKey(c, pk.pq.value);
    assert c.dh(sk.classical, c.dhPk(ephemeral)) == c.dh(ephemeral, c.dhPk(sk.classical));
  }

  // ----- keys and associated data

  const DIGEST_TAG: string := "KYRIOTES-CSK2-AUTHORITY-DIGEST-v1"
  const KEK_TAG: string := "KYRIOTES-CSK2-KEK-v1"
  const AUTHORITY_AAD_TAG: string := "KYRIOTES-CSK2-AUTHORITY-AAD-v2"
  const PAYLOAD_AAD_TAG: string := "KYRIOTES-CSK2-PAYLOAD-AAD-v1"

  function DigestBody(state: AuthorityState, policyHash: Bytes32): Bytes {
    state.authorityRoot + state.revocationRoot + state.transparencyRoot + LittleEndian(state.epoch, 8)
    + policyHash + state.authorityId + LittleEndian(state.revocationCount, 8)
  }

  function DigestInput(state: AuthorityState, policyHash: Bytes32): Bytes {
    Tagged(DIGEST_TAG, DigestBody(state, policyHash))
  }

  function AuthorityDigest(c: Suite, state: AuthorityState, policyHash: Bytes32): Bytes32 {
    c.hash(DigestInput(state, policyHash))
  }

  /** The one field of variable length sits between fixed ones, so the digest names every field. */
  lemma DigestInputInjective(a: AuthorityState, p: Bytes32, b: AuthorityState, q: Bytes32)
    requires DigestInput(a, p) == DigestInput(b, q)
    requires a.revocationCount < U64_SPAN && b.revocationCount < U64_SPAN
    ensures a.authorityRoot == b.authorityRoot && a.revocationRoot == b.revocationRoot
    ensures a.transparencyRoot == b.transparencyRoot && a.epoch == b.epoch && a.authorityId == b.authorityId
    ensures a.revocationCount == b.revocationCount && p == q
  {
    hide LittleEndian;
    DigestSlices(a, p);
    DigestSlices(b, q);
    LittleEndian64Injective(a.epoch, b.epoch);
    LittleEndian64Injective(a.revocationCount, b.revocationCount);
  }

  lemma DigestSlices(s: AuthorityState, p: Bytes32)
    ensures var x := DigestBody(s, p);
      && |x| == 144 + |s.authorityId| && x[..32] == s.authorityRoot && x[32..64] == s.revocationRoot
      && x[64..96] == s.transparencyRoot && x[96..104] == LittleEndian(s.epoch, 8) && x[104..136] == p
      && x[136..|x| - 8] == s.authorityId && x[|x| - 8..] == LittleEndian(s.revocationCount, 8)
  {
    hide LittleEndian;
  }

  /** The three inputs of the key derivation: salt, keying material and info. */
  function KekQuery(
      c: Suite, secret: Bytes32, state: AuthorityState, ctx: Bytes32, policyHash: Bytes32): (Bytes32, Bytes, Bytes)
  {
    (AuthorityDigest(c, state, policyHash), secret + ctx, Tagged(KEK_TAG, ctx))
  }

  function DeriveKek(c: Suite, secret: Bytes32, state: AuthorityState, ctx: Bytes32, policyHash: Bytes32): Bytes32 {
    var (salt, ikm, info) := KekQuery(c, secret, state, ctx, policyHash);
    c.hkdf(salt, ikm, info)
  }

  /** Keys agree exactly when digest, shared secret and context do. */
  lemma KeksAgreeIff(
      c: Suite, K: set<(Bytes32, Bytes, Bytes)>, secret: Bytes32, s: AuthorityState, ctx: Bytes32, p: Bytes32,
      secret': Bytes32, t: AuthorityState, ctx': Bytes32, q: Bytes32)
    requires KdfBinds(c, K) && KekQuery(c, secret, s, ctx, p) in K && KekQuery(c, secret', t, ctx', q) in K
    ensures DeriveKek(c, secret, s, ctx, p) == DeriveKek(c, secret', t, ctx', q)
      <==> secret == secret' && ctx == ctx' && AuthorityDigest(c, s, p) == AuthorityDigest(c, t, q)
  {
    hide AuthorityDigest;
    if DeriveKek(c, secret, s, ctx, p) == DeriveKek(c, secret', t, ctx', q) {
      var x, y := secret + ctx, secret' + ctx';
      assert x == y && x[..32] == secret && x[32..] == ctx && y[..32] == secret' && y[32..] == ctx';
    }
  }

  function Context(c: Suite, o: SealedObject, state: AuthorityState, stamp: Bytes32): Bytes32 {
    c.hash(ContextInput(o.objectId, o.requiredRights, o.policyHash, state, stamp, o.temporalPolicy))
  }

  function AuthorityFields(
      o: SealedObject, state: AuthorityState, ctx: Bytes32, ctClassical: Bytes32, ctPq: Bytes): Bytes
  {
    PutBytes(o.objectId,
    PutRights(o.requiredRights,
    PutBytes(o.policyHash,
    PutU64(state.epoch,
    PutBytes(state.authorityRoot,
    PutBytes(state.revocationRoot,
    PutBytes(state.transparencyRoot,
    PutBytes(ctx,
    PutTemporalPolicy(o.temporalPolicy,
    PutBytes(ctClassical,
    PutBytes(ctPq, [])))))))))))
  }

  function AuthorityAad(
      o: SealedObject, state: AuthorityState, ctx: Bytes32, ctClassical: Bytes32, ctPq: Bytes): Bytes
  {
    Tagged(AUTHORITY_AAD_TAG, AuthorityFields(o, state, ctx, ctClassical, ctPq))
  }

  function PayloadFields(o: SealedObject): Bytes {
    PutBytes(o.objectId,
    PutRights(o.requiredRights,
    PutBytes(o.policyHash,
    PutU64(o.sealEpoch, []))))
  }

  function PayloadAad(o: SealedObject): Bytes {
    Tagged(PAYLOAD_AAD_TAG, PayloadFields(o))
  }

  // ----- sealing

  /** What one wrapper was made from, apart from the object, the capability and the data key. */
  datatype Making = Making(
    pk: RecipientPublicKey,
    state: AuthorityState,
    transparencyProof: TransparencyProof,
    wrapNonce: Bytes12,
    ephemeral: Bytes32,
    coins: Bytes32)

  function MakeWrapper(c: Suite, o: SealedObject, cap: Capability, dek: Bytes32, m: Making): AuthorityWrapper {
    var stamp := CapabilityStamp(c.hash, cap, m.state.authorityId);
    var ctx := Context(c, o, m.state, stamp);
    var e := Encapsulate(c, m.pk, m.ephemeral, m.coins);
    var kek := DeriveKek(c, e.secret, m.state, ctx, o.policyHash);
    var aad := AuthorityAad(o, m.state, ctx, e.ctClassical, e.ctPq);
    AuthorityWrapper(m.state.epoch, e.ctClassical, e.ctPq, m.wrapNonce, c.encrypt(kek, m.wrapNonce, aad, dek),
                     ctx, stamp, m.transparencyProof)
  }

  const SUITE_NAME: string := "KYRIOTES-CSK2-DEV-CHACHA20POLY1305-HKDF-SHA256"

  function BareObject(
      req: OpenRequest, state: AuthorityState, policy: TemporalPolicy, payloadNonce: Bytes12): SealedObject
  {
    SealedObject(1, Ascii(SUITE_NAME), req.objectId, req.requiredRights, req.policyHash, state.epoch, policy,
                 state.authorityRoot, state.revocationRoot, payloadNonce, [], [])
  }

  datatype SealArgs = SealArgs(
    cap: Capability,
    proof: CapabilityProof,
    req: OpenRequest,
    policy: TemporalPolicy,
    payloadNonce: Bytes12,
    dek: Bytes32,
    making: Making)

  function Seal(c: Suite, message: Bytes, args: SealArgs): Result<SealedObject> {
    var _ :- ValidateCapability(c, args.cap, args.proof, args.making.state, args.req);
    var bare := BareObject(args.req, args.making.state, args.policy, args.payloadNonce);
    Ok(bare.(payloadCiphertext := c.encrypt(args.dek, args.payloadNonce, PayloadAad(bare), message),
             wrappers := [MakeWrapper(c, bare, args.cap, args.dek, args.making)]))
  }

  // ----- opening

  /** The first wrapper for `epoch`. */
  function FindWrapper(ws: seq<AuthorityWrapper>, epoch: u64): (r: Option<nat>)
    ensures r.Some? ==> r.value < |ws| && ws[r.value].epoch == epoch
    ensures r.Some? ==> forall i :: 0 <= i < r.value ==> ws[i].epoch != epoch
    ensures r.None? ==> forall i :: 0 <= i < |ws| ==> ws[i].epoch != epoch
  {
    if ws == [] then None
    else if ws[0].epoch == epoch then Some(0)
    else
      match FindWrapper(ws[1..], epoch)
      case None => None
      case Some(i) => Some(i + 1)
  }

  function SelectWrapper(o: SealedObject, state: AuthorityState): Result<AuthorityWrapper> {
    if !o.temporalPolicy.Accepts(state.epoch, o.sealEpoch) then Err(TemporalRejected)
    else if o.temporalPolicy.RequiredWrapperEpoch(state.epoch, o.sealEpoch) != state.epoch then Err(AuthorityMismatch)
    else
      match FindWrapper(o.wrappers, state.epoch)
      case None => Err(MissingWrapper)
      case Some(i) => Ok(o.wrappers[i])
  }

  function UnwrapDek(
      c: Suite, sk: RecipientSecretKey, o: SealedObject, cap: Capability,
      state: AuthorityState, w: AuthorityWrapper): Result<Bytes32>
  {
    var stamp := CapabilityStamp(c.hash, cap, state.authorityId);
    var ctx := Context(c, o, state, stamp);
    if w.epoch != state.epoch then Err(AuthorityMismatch)
    else if stamp != w.capabilityStamp then Err(InvalidCapability)
    else if ctx != w.contextHash then Err(AuthorityMismatch)
    else
      var kek := DeriveKek(c, Decapsulate(c, sk, w.kemCtClassical, w.kemCtPq), state, ctx, o.policyHash);
      match c.decrypt(kek, w.wrapNonce, AuthorityAad(o, state, ctx, w.kemCtClassical, w.kemCtPq), w.wrappedDek)
      case None => Err(CryptoFailure)
      case Some(dek) => if |dek| != 32 then Err(CryptoFailure) else Ok(dek)
  }

  function RequestFor(o: SealedObject, epoch: u64): OpenRequest {
    OpenRequest(o.objectId, o.requiredRights, o.policyHash, epoch)
  }

  function OpenVerified(
      c: Suite, sk: RecipientSecretKey, o: SealedObject, cap: Capability, proof: CapabilityProof,
      state: AuthorityState, w: AuthorityWrapper): Result<Bytes>
  {
    var _ :- ValidateCapability(c, cap, proof, state, RequestFor(o, state.epoch));
    var dek :- UnwrapDek(c, sk, o, cap, state, w);
    match c.decrypt(dek, o.payloadNonce, PayloadAad(o), o.payloadCiphertext)
    case None => Err(CryptoFailure)
    case Some(message) => Ok(message)
  }

  /** Any `AuthorityVerifier`: what it answers for a state and a transparency proof. */
  type StateVerifier = (AuthorityState, TransparencyProof) -> Result<()>

  function Open(
      c: Suite, v: StateVerifier, sk: RecipientSecretKey, o: SealedObject, cap: Capability, proof: CapabilityProof,
      state: AuthorityState): Result<Bytes>
  {
    var w :- SelectWrapper(o, state);
    var _ :- v(state, w.transparencyProof);
    OpenVerified(c, sk, o, cap, proof, state, w)
  }

  function VerifyObject(
      c: Suite, v: StateVerifier, o: SealedObject, cap: Capability, proof: CapabilityProof,
      state: AuthorityState, transparencyProof: TransparencyProof): Result<()>
  {
    var _ :- v(state, transparencyProof);
    if !o.temporalPolicy.Accepts(state.epoch, o.sealEpoch) then Err(TemporalRejected)
    else if o.temporalPolicy.RequiredWrapperEpoch(state.epoch, o.sealEpoch) != state.epoch then Err(AuthorityMismatch)
    else ValidateCapability(c, cap, proof, state, RequestFor(o, state.epoch))
  }

  /** Which error each failing gate of the selection gives. */
  lemma SelectionErrors(o: SealedObject, state: AuthorityState)
    ensures var r, seal := SelectWrapper(o, state), o.sealEpoch;
      && (r.Ok? <==>
          o.temporalPolicy.Admits(state.epoch, seal) && exists w :: w in o.wrappers && w.epoch == state.epoch)
      && (r == Err(TemporalRejected) <==> !o.temporalPolicy.Accepts(state.epoch, seal))
      && (r == Err(AuthorityMismatch) <==>
          o.temporalPolicy.Accepts(state.epoch, seal) && !o.temporalPolicy.Admits(state.epoch, seal))
      && (r == Err(MissingWrapper) <==>
          o.temporalPolicy.Admits(state.epoch, seal) && forall w :: w in o.wrappers ==> w.epoch != state.epoch)
  {
    hide FindWrapper;
    var r := FindWrapper(o.wrappers, state.epoch);
    if r.Some? {
      assert o.wrappers[r.value] in o.wrappers;
    }
  }

  /** Which error each failing gate of opening and verifying gives, the verifier's own passed on. */
  lemma OpeningErrors(
      c: Suite, v: StateVerifier, sk: RecipientSecretKey, o: SealedObject, cap: Capability, proof: CapabilityProof,
      state: AuthorityState, t: TransparencyProof)
    ensures var r, w := Open(c, v, sk, o, cap, proof, state), SelectWrapper(o, state);
      && (w.Err? ==> r == Err(w.error))
      && (w.Ok? ==>
          var known := v(state, w.value.transparencyProof);
          && (known.Err? ==> r == Err(known.error))
          && (known.Ok? && ValidateCapability(c, cap, proof, state, RequestFor(o, state.epoch)).Err?
              ==> r == Err(InvalidCapability)))
    ensures var r := VerifyObject(c, v, o, cap, proof, state, t);
      && (v(state, t).Err? ==> r == Err(v(state, t).error))
      && (v(state, t).Ok? && !o.temporalPolicy.Accepts(state.epoch, o.sealEpoch) ==> r == Err(TemporalRejected))
      && (v(state, t).Ok? && o.temporalPolicy.Accepts(state.epoch, o.sealEpoch)
          && !o.temporalPolicy.Admits(state.epoch, o.sealEpoch)
          ==> r == Err(AuthorityMismatch))
  {
    hide ValidateCapability, UnwrapDek, PayloadAad, SelectWrapper;
  }

  /** Verifying accepts exactly when the verifier, the policy and the capability do. */
  lemma VerifiesIff(
      c: Suite, v: StateVerifier, o: SealedObject, cap: Capability, proof: CapabilityProof,
      state: AuthorityState, transparencyProof: TransparencyProof)
    ensures VerifyObject(c, v, o, cap, proof, state, transparencyProof).Ok? <==>
      && v(state, transparencyProof).Ok? && o.temporalPolicy.Admits(state.epoch, o.sealEpoch)
      && ValidateCapability(c, cap, proof, state, RequestFor(o, state.epoch)).Ok?
  {
    hide ValidateCapability;
  }

  /**
    Opening refines verifying: whatever opens also verifies, with the transparency proof of
    the selected wrapper, at an epoch that the policy accepts and requires.
   */
  lemma OpenRefinesVerify(
      c: Suite, v: StateVerifier, sk: RecipientSecretKey, o: SealedObject, cap: Capability, proof: CapabilityProof,
      state: AuthorityState)
    requires Open(c, v, sk, o, cap, proof, state).Ok?
    ensures SelectWrapper(o, state).Ok? && SelectWrapper(o, state).value in o.wrappers
    ensures VerifyObject(c, v, o, cap, proof, state, SelectWrapper(o, state).value.transparencyProof).Ok?
    ensures o.temporalPolicy.Accepts(state.epoch, o.sealEpoch)
    ensures o.temporalPolicy.RequiredWrapperEpoch(state.epoch, o.sealEpoch) == state.epoch
    ensures SelectWrapper(o, state).value.epoch == state.epoch
  {
    hide ValidateCapability, UnwrapDek, PayloadAad;
  }
}
