/**
  Runs of rewraps and reseals over one message (src/kyriotes_csk2/engine.rs): what every
  run keeps, and what therefore opens.
 */
module Rewrapping {
  import opened Octets
  import opened Merkle
  import opened Model
  import opened Crypto
  import opened CapabilityTree
  import opened Authority
  import opened Sealing

  datatype RewrapArgs = RewrapArgs(
    sk: RecipientSecretKey,
    cap: Capability,
    proof: CapabilityProof,
    from: AuthorityState,
    making: Making)

  /** Replaces the wrapper for `w`'s epoch, or appends `w`. */
  function PutWrapperInto(ws: seq<AuthorityWrapper>, w: AuthorityWrapper): seq<AuthorityWrapper> {
    match FindWrapper(ws, w.epoch)
    case Some(i) => ws[i := w]
    case None => ws + [w]
  }

  /** `add_epoch_wrapper_with_verifier`: the updated object. */
  function Rewrap(c: Suite, v: StateVerifier, o: SealedObject, args: RewrapArgs): Result<SealedObject> {
    var to := args.making.state;
    match FindWrapper(o.wrappers, args.from.epoch)
    case None => Err(MissingWrapper)
    case Some(i) =>
      var _ :- v(args.from, o.wrappers[i].transparencyProof);
      var _ :- v(to, args.making.transparencyProof);
      var _ :- ValidateCapability(c, args.cap, args.proof, args.from, RequestFor(o, args.from.epoch));
      var dek :- UnwrapDek(c, args.sk, o, args.cap, args.from, o.wrappers[i]);
      if to.epoch <= args.from.epoch then Err(InvalidCapability)
      else if to.epoch < args.cap.epochStart || to.epoch > args.cap.epochEnd then Err(InvalidCapability)
      else Ok(o.(wrappers := PutWrapperInto(o.wrappers, MakeWrapper(c, o, args.cap, dek, args.making))))
  }

  datatype ResealArgs = ResealArgs(
    sk: RecipientSecretKey,
    openProof: CapabilityProof,
    openState: AuthorityState,
    seal: SealArgs)

  /** `open_and_reseal_with_verifier`: one capability opens the old object and seals the new one. */
  function OpenAndReseal(c: Suite, v: StateVerifier, o: SealedObject, args: ResealArgs): Result<SealedObject> {
    match FindWrapper(o.wrappers, args.openState.epoch)
    case None => Err(MissingWrapper)
    case Some(i) =>
      var _ :- v(args.openState, o.wrappers[i].transparencyProof);
      var _ :- v(args.seal.making.state, args.seal.making.transparencyProof);
      var w :- SelectWrapper(o, args.openState);
      var message :- OpenVerified(c, args.sk, o, args.seal.cap, args.openProof, args.openState, w);
      Seal(c, message, args.seal)
  }

  /** Which error each failing gate of rewrapping gives, the verifier's own passed on. */
  lemma RewrapErrors(c: Suite, v: StateVerifier, o: SealedObject, args: RewrapArgs)
    ensures var r, at := Rewrap(c, v, o, args), FindWrapper(o.wrappers, args.from.epoch);
      && (at.None? ==> r == Err(MissingWrapper))
      && (at.Some? ==>
          var from, to := v(args.from, o.wrappers[at.value].transparencyProof),
            v(args.making.state, args.making.transparencyProof);
          && (from.Err? ==> r == Err(from.error))
          && (from.Ok? && to.Err? ==> r == Err(to.error))
          && (from.Ok? && to.Ok?
              && ValidateCapability(c, args.cap, args.proof, args.from, RequestFor(o, args.from.epoch)).Err?
              ==> r == Err(InvalidCapability))
          && (r.Ok? ==> from.Ok? && to.Ok?))
  {
    hide ValidateCapability, UnwrapDek, FindWrapper, MakeWrapper, PutWrapperInto;
  }

  // ----- what an object holds

  /** The message, capability, data key and wrapper makings that an object was built from. */
  datatype Provenance = Provenance(message: Bytes, cap: Capability, dek: Bytes32, makings: seq<Making>)

  ghost predicate DistinctEpochs(ws: seq<AuthorityWrapper>) {
    forall i, j :: 0 <= i < j < |ws| ==> ws[i].epoch != ws[j].epoch
  }

  /** Every wrapper wraps the one data key for the one capability; the payload is the one message. */
  ghost predicate Carries(c: Suite, o: SealedObject, p: Provenance) {
    && o.payloadCiphertext == c.encrypt(p.dek, o.payloadNonce, PayloadAad(o), p.message)
    && |o.wrappers| == |p.makings|
    && (forall i :: 0 <= i < |o.wrappers| ==> o.wrappers[i] == MakeWrapper(c, o, p.cap, p.dek, p.makings[i]))
    && DistinctEpochs(o.wrappers)
  }

  /** The stamps that `cap` takes under the makings' authorities are among the hashed strings. */
  ghost predicate StampsWithin(h: Hash, Q: set<Bytes>, cap: Capability, authorityId: Bytes) {
    Distinguishable(Q, cap) && StampInput(CapabilityLeaf(h, cap), authorityId) in Q
  }

  ghost predicate ProvenanceWithin(h: Hash, Q: set<Bytes>, p: Provenance) {
    forall i :: 0 <= i < |p.makings| ==> StampsWithin(h, Q, p.cap, p.makings[i].state.authorityId)
  }

  /** Sealing needs a valid capability for the request, and seals the message under exactly that request. */
  lemma SealCarries(c: Suite, message: Bytes, args: SealArgs)
    requires Seal(c, message, args).Ok?
    ensures Carries(c, Seal(c, message, args).value, Provenance(message, args.cap, args.dek, [args.making]))
    ensures ValidateCapability(c, args.cap, args.proof, args.making.state, args.req).Ok?
    ensures var o := Seal(c, message, args).value;
      && RequestFor(o, o.sealEpoch) == args.req && o.sealEpoch == args.making.state.epoch
      && o.temporalPolicy == args.policy && o.version == 1 && o.suite == Ascii(SUITE_NAME)
      && o.authorityRoot == args.making.state.authorityRoot && o.revocationRoot == args.making.state.revocationRoot
      && o.payloadNonce == args.payloadNonce
  {
    hide MakeWrapper, PayloadAad, VerifyInclusion, VerifyNonRevocation, VerifyIssuance, CapabilityStamp;
    HeaderDecides(c, BareObject(args.req, args.making.state, args.policy, args.payloadNonce),
                  Seal(c, message, args).value, args.cap, args.dek, args.making);
  }

  /** Wrappers and payload data depend on an object's header only. */
  ghost predicate SameHeader(a: SealedObject, b: SealedObject) {
    && a.objectId == b.objectId && a.requiredRights == b.requiredRights && a.policyHash == b.policyHash
    && a.sealEpoch == b.sealEpoch && a.temporalPolicy == b.temporalPolicy
  }

  lemma HeaderDecides(c: Suite, a: SealedObject, b: SealedObject, cap: Capability, dek: Bytes32, m: Making)
    requires SameHeader(a, b)
    ensures MakeWrapper(c, a, cap, dek, m) == MakeWrapper(c, b, cap, dek, m)
    ensures PayloadAad(a) == PayloadAad(b)
  {
    hide Encapsulate, DeriveKek, CapabilityStamp, ContextInput;
  }

  // ----- a rewrap keeps it

  /** Whatever unwraps from a made wrapper is the key that was wrapped. */
  lemma UnwrapReturnsTheKey(
      c: Suite, sk: RecipientSecretKey, o: SealedObject, cap: Capability, state: AuthorityState,
      made: Capability, dek: Bytes32, m: Making)
    requires AeadBinds(c) && UnwrapDek(c, sk, o, cap, state, MakeWrapper(c, o, made, dek, m)).Ok?
    ensures UnwrapDek(c, sk, o, cap, state, MakeWrapper(c, o, made, dek, m)).value == dek
    ensures CapabilityStamp(c.hash, cap, state.authorityId) == CapabilityStamp(c.hash, made, m.state.authorityId)
  {
    hide Encapsulate, Decapsulate, DeriveKek, CapabilityStamp, Context, AuthorityAad;
  }

  /**
    Whatever unwraps a made wrapper has decapsulated to the secret that was encapsulated, for
    the context and the authority digest the wrapper was made with.
   */
  lemma UnwrapNeedsTheSecret(
      c: Suite, K: set<(Bytes32, Bytes, Bytes)>, sk: RecipientSecretKey, o: SealedObject, cap: Capability,
      state: AuthorityState, made: Capability, dek: Bytes32, m: Making)
    requires AeadBinds(c) && KdfBinds(c, K)
    requires UnwrapDek(c, sk, o, cap, state, MakeWrapper(c, o, made, dek, m)).Ok?
    requires MakingQuery(c, o, made, m) in K && OpeningQuery(c, sk, o, cap, state, m) in K
    ensures Recovers(c, sk, m)
    ensures AuthorityDigest(c, state, o.policyHash) == AuthorityDigest(c, m.state, o.policyHash)
  {
    hide Encapsulate, Decapsulate, DeriveKek, CapabilityStamp, Context, AuthorityAad, AuthorityDigest, KekQuery;
    hide KdfBinds;
    var e := Encapsulate(c, m.pk, m.ephemeral, m.coins);
    var ctx := Context(c, o, m.state, CapabilityStamp(c.hash, made, m.state.authorityId));
    var ctx' := Context(c, o, state, CapabilityStamp(c.hash, cap, state.authorityId));
    KeksAgreeIff(c, K, e.secret, m.state, ctx, o.policyHash,
                 Decapsulate(c, sk, e.ctClassical, e.ctPq), state, ctx', o.policyHash);
  }

  /** `sk` decapsulates what `m` encapsulated to the same secret. */
  ghost predicate Recovers(c: Suite, sk: RecipientSecretKey, m: Making) {
    var e := Encapsulate(c, m.pk, m.ephemeral, m.coins);
    Decapsulate(c, sk, e.ctClassical, e.ctPq) == e.secret
  }

  /** The key derivation queries of making a wrapper, and of opening it. */
  ghost function MakingQuery(c: Suite, o: SealedObject, cap: Capability, m: Making): (Bytes32, Bytes, Bytes) {
    KekQuery(c, Encapsulate(c, m.pk, m.ephemeral, m.coins).secret, m.state,
             Context(c, o, m.state, CapabilityStamp(c.hash, cap, m.state.authorityId)), o.policyHash)
  }

  ghost function OpeningQuery(
      c: Suite, sk: RecipientSecretKey, o: SealedObject, cap: Capability, state: AuthorityState, m: Making)
      : (Bytes32, Bytes, Bytes)
  {
    var e := Encapsulate(c, m.pk, m.ephemeral, m.coins);
    KekQuery(c, Decapsulate(c, sk, e.ctClassical, e.ctPq), state,
             Context(c, o, state, CapabilityStamp(c.hash, cap, state.authorityId)), o.policyHash)
  }

  /** Recovering the secret takes the Diffie-Hellman value and, when it was used, the post-quantum secret. */
  lemma RecoveringTakesBothHalves(c: Suite, Q: set<Bytes>, sk: RecipientSecretKey, m: Making)
    requires CollisionFree(c.hash, Q)
    requires var (ctPq, ss) := EncapsulatePq(c, m.pk.pq, m.coins);
      && SecretInput(c.dh(m.ephemeral, m.pk.classical), if ctPq == [] then None else Some(ss)) in Q
      && SecretInput(c.dh(sk.classical, c.dhPk(m.ephemeral)),
                     if ctPq == [] then None else Some(DecapsulatePq(c, sk.pq, ctPq))) in Q
    ensures var (ctPq, ss) := EncapsulatePq(c, m.pk.pq, m.coins);
      Recovers(c, sk, m) <==>
        && c.dh(sk.classical, c.dhPk(m.ephemeral)) == c.dh(m.ephemeral, m.pk.classical)
        && (ctPq != [] ==> DecapsulatePq(c, sk.pq, ctPq) == ss)
  {
    hide HybridSecret, EncapsulatePq, DecapsulatePq, CollisionFree;
    var (ctPq, ss) := EncapsulatePq(c, m.pk.pq, m.coins);
    SecretsAgreeIff(c, Q, c.dh(sk.classical, c.dhPk(m.ephemeral)),
                    if ctPq == [] then None else Some(DecapsulatePq(c, sk.pq, ctPq)),
                    c.dh(m.ephemeral, m.pk.classical), if ctPq == [] then None else Some(ss));
  }

  lemma StampIdentifiesCapability(h: Hash, Q: set<Bytes>, a: Capability, idA: Bytes, b: Capability, idB: Bytes)
    requires CollisionFree(h, Q) && StampsWithin(h, Q, a, idA) && StampsWithin(h, Q, b, idB)
    requires CapabilityStamp(h, a, idA) == CapabilityStamp(h, b, idB)
    ensures a == b && idA == idB
  {
    hide Distinguishable, CapabilityLeaf, StampInput;
    StampInputInjective(CapabilityLeaf(h, a), idA, CapabilityLeaf(h, b), idB);
    LeafIdentifiesCapability(h, Q, a, b);
  }

  ghost function Rewrapped(p: Provenance, o: SealedObject, m: Making): (q: Provenance)
    ensures q.message == p.message && q.cap == p.cap && q.dek == p.dek
    ensures forall x :: x in q.makings ==> x in p.makings || x == m
  {
    match FindWrapper(o.wrappers, m.state.epoch)
    case Some(i) => if i < |p.makings| then p.(makings := p.makings[i := m]) else p
    case None => p.(makings := p.makings + [m])
  }

  /** No epoch that has a wrapper loses it. */
  ghost predicate KeepsEpochs(ws: seq<AuthorityWrapper>, after: seq<AuthorityWrapper>) {
    forall epoch | FindWrapper(ws, epoch).Some? :: FindWrapper(after, epoch).Some?
  }

  lemma PutKeepsEpochs(ws: seq<AuthorityWrapper>, w: AuthorityWrapper)
    ensures KeepsEpochs(ws, PutWrapperInto(ws, w)) && FindWrapper(PutWrapperInto(ws, w), w.epoch).Some?
  {
    hide FindWrapper;
    var after := PutWrapperInto(ws, w);
    forall epoch | FindWrapper(ws, epoch).Some? || epoch == w.epoch
      ensures FindWrapper(after, epoch).Some?
    {
      var at := FindWrapper(ws, epoch);
      assert after[if at.Some? then at.value else |ws|].epoch == epoch;
    }
  }

  lemma PutKeepsDistinct(ws: seq<AuthorityWrapper>, w: AuthorityWrapper)
    requires DistinctEpochs(ws)
    ensures DistinctEpochs(PutWrapperInto(ws, w))
  {
    hide FindWrapper;
    var after := PutWrapperInto(ws, w);
    forall i, j | 0 <= i < j < |after|
      ensures after[i].epoch != after[j].epoch
    {
    }
  }

  /** Putting in one more wrapper of the same key keeps an object carrying. */
  lemma PutCarries(c: Suite, o: SealedObject, p: Provenance, m: Making)
    requires Carries(c, o, p)
    ensures Carries(
      c, o.(wrappers := PutWrapperInto(o.wrappers, MakeWrapper(c, o, p.cap, p.dek, m))), Rewrapped(p, o, m))
    ensures m in Rewrapped(p, o, m).makings
  {
    hide MakeWrapper, FindWrapper, DistinctEpochs, PayloadAad;
    var w := MakeWrapper(c, o, p.cap, p.dek, m);
    var after := o.(wrappers := PutWrapperInto(o.wrappers, w));
    WrapperEpoch(c, o, p.cap, p.dek, m);
    PutKeepsDistinct(o.wrappers, w);
    HeaderDecides(c, after, o, p.cap, p.dek, m);
    var q := Rewrapped(p, o, m);
    forall i | 0 <= i < |after.wrappers|
      ensures after.wrappers[i] == MakeWrapper(c, after, p.cap, p.dek, q.makings[i])
    {
      HeaderDecides(c, after, o, p.cap, p.dek, q.makings[i]);
    }
    var r := FindWrapper(o.wrappers, m.state.epoch);
    assert q.makings[if r.Some? then r.value else |p.makings|] == m;
  }

  /** The gates that a rewrap passed. */
  ghost predicate RewrapAllowed(c: Suite, v: StateVerifier, o: SealedObject, args: RewrapArgs) {
    && v(args.making.state, args.making.transparencyProof).Ok?
    && ValidateCapability(c, args.cap, args.proof, args.from, RequestFor(o, args.from.epoch)).Ok?
    && args.from.epoch < args.making.state.epoch
    && args.cap.epochStart <= args.making.state.epoch <= args.cap.epochEnd
    && exists w :: w in o.wrappers && w.epoch == args.from.epoch && v(args.from, w.transparencyProof).Ok?
  }

  /** A successful rewrap keeps message, key, capability, payload and wrapped epochs, and adds the new epoch. */
  lemma RewrapKeeps(c: Suite, Q: set<Bytes>, v: StateVerifier, o: SealedObject, args: RewrapArgs, p: Provenance)
    requires Carries(c, o, p) && ProvenanceWithin(c.hash, Q, p) && CollisionFree(c.hash, Q) && AeadBinds(c)
    requires StampsWithin(c.hash, Q, args.cap, args.from.authorityId)
    requires StampsWithin(c.hash, Q, args.cap, args.making.state.authorityId)
    requires Rewrap(c, v, o, args).Ok?
    ensures Carries(c, Rewrap(c, v, o, args).value, Rewrapped(p, o, args.making))
    ensures ProvenanceWithin(c.hash, Q, Rewrapped(p, o, args.making))
    ensures args.cap == p.cap && RewrapAllowed(c, v, o, args)
    ensures Rewrap(c, v, o, args).value.(wrappers := o.wrappers) == o
    ensures KeepsEpochs(o.wrappers, Rewrap(c, v, o, args).value.wrappers)
    ensures FindWrapper(Rewrap(c, v, o, args).value.wrappers, args.making.state.epoch).Some?
  {
    hide ValidateCapability, UnwrapDek, MakeWrapper, FindWrapper, CollisionFree, AeadBinds, DistinctEpochs;
    hide StampsWithin, PayloadAad, CapabilityStamp, PutWrapperInto, KeepsEpochs;
    var i := FindWrapper(o.wrappers, args.from.epoch).value;
    assert o.wrappers[i] in o.wrappers;
    UnwrapReturnsTheKey(c, args.sk, o, args.cap, args.from, p.cap, p.dek, p.makings[i]);
    StampIdentifiesCapability(c.hash, Q, args.cap, args.from.authorityId, p.cap, p.makings[i].state.authorityId);
    PutCarries(c, o, p, args.making);
    WrapperEpoch(c, o, p.cap, p.dek, args.making);
    PutKeepsEpochs(o.wrappers, MakeWrapper(c, o, p.cap, p.dek, args.making));
  }

  lemma WrapperEpoch(c: Suite, o: SealedObject, cap: Capability, dek: Bytes32, m: Making)
    ensures MakeWrapper(c, o, cap, dek, m).epoch == m.state.epoch
  {
    hide Encapsulate, DeriveKek, CapabilityStamp, Context, AuthorityAad;
  }

  // ----- what opens

  /** Any successful open of a carrying object, by anyone, returns the one message. */
  lemma OpenReturnsTheMessage(
      c: Suite, v: StateVerifier, sk: RecipientSecretKey, o: SealedObject, cap: Capability, proof: CapabilityProof,
      state: AuthorityState, p: Provenance)
    requires Carries(c, o, p) && AeadBinds(c) && Open(c, v, sk, o, cap, proof, state).Ok?
    ensures Open(c, v, sk, o, cap, proof, state).value == p.message
  {
    hide ValidateCapability, UnwrapDek, MakeWrapper, FindWrapper, PayloadAad, DistinctEpochs;
    var i := FindWrapper(o.wrappers, state.epoch).value;
    UnwrapReturnsTheKey(c, sk, o, cap, state, p.cap, p.dek, p.makings[i]);
  }

  /** The policy lets a state at this epoch open the object with the wrapper for this epoch. */
  predicate PolicyAdmits(o: SealedObject, epoch: u64) {
    o.temporalPolicy.Admits(epoch, o.sealEpoch)
  }

  lemma MadeWrapperUnwraps(
      c: Suite, sk: RecipientSecretKey, o: SealedObject, cap: Capability, dek: Bytes32, m: Making)
    requires AeadDecrypts(c) && Recovers(c, sk, m)
    ensures UnwrapDek(c, sk, o, cap, m.state, MakeWrapper(c, o, cap, dek, m)) == Ok(dek)
  {
    hide Encapsulate, Decapsulate, DeriveKek, CapabilityStamp, Context, AuthorityAad;
  }

  /** The matching key recovers. */
  lemma MatchingKeyRecovers(c: Suite, sk: RecipientSecretKey, m: Making)
    requires KemsAgree(c) && KeysMatch(c, m.pk, sk)
    ensures Recovers(c, sk, m)
  {
    hide Encapsulate, Decapsulate, KemsAgree, KeysMatch;
    KemRoundTrip(c, m.pk, sk, m.ephemeral, m.coins);
  }

  /** The wrapper of a making is the one that its epoch finds, and holds its transparency proof. */
  lemma MakingIsFound(c: Suite, o: SealedObject, p: Provenance, i: nat)
    requires Carries(c, o, p) && i < |p.makings|
    ensures FindWrapper(o.wrappers, p.makings[i].state.epoch) == Some(i)
    ensures o.wrappers[i].transparencyProof == p.makings[i].transparencyProof
    ensures o.wrappers[i] == MakeWrapper(c, o, p.cap, p.dek, p.makings[i])
  {
    hide FindWrapper, MakeWrapper, PayloadAad;
    var m := p.makings[i];
    WrapperEpoch(c, o, p.cap, p.dek, m);
    WrapperProof(c, o, p.cap, p.dek, m);
    assert o.wrappers[i].epoch == m.state.epoch;
  }

  /** Who recovers the secret opens at every wrapped state whose gates pass, and gets the message. */
  lemma OpenSucceeds(
      c: Suite, v: StateVerifier, sk: RecipientSecretKey, o: SealedObject, proof: CapabilityProof,
      p: Provenance, i: nat)
    requires Carries(c, o, p) && i < |p.makings|
    requires AeadDecrypts(c) && Recovers(c, sk, p.makings[i])
    requires PolicyAdmits(o, p.makings[i].state.epoch)
    requires v(p.makings[i].state, p.makings[i].transparencyProof).Ok?
    requires ValidateCapability(c, p.cap, proof, p.makings[i].state, RequestFor(o, p.makings[i].state.epoch)).Ok?
    ensures Open(c, v, sk, o, p.cap, proof, p.makings[i].state) == Ok(p.message)
  {
    hide ValidateCapability, UnwrapDek, FindWrapper, PayloadAad, MakeWrapper, Recovers, DistinctEpochs;
    MakingIsFound(c, o, p, i);
    MadeWrapperUnwraps(c, sk, o, p.cap, p.dek, p.makings[i]);
  }

  lemma WrapperProof(c: Suite, o: SealedObject, cap: Capability, dek: Bytes32, m: Making)
    ensures MakeWrapper(c, o, cap, dek, m).transparencyProof == m.transparencyProof
  {
    hide Encapsulate, DeriveKek, CapabilityStamp, Context, AuthorityAad;
  }

  // ----- whole runs

  /** Each operation brings the verifier of its own moment: a registry grows between operations. */
  datatype Op =
    | RewrapOp(v: StateVerifier, rewrap: RewrapArgs)
    | ResealOp(v: StateVerifier, reseal: ResealArgs)

  /** A failed operation leaves the object as it was; a reseal replaces it. */
  function Do(c: Suite, o: SealedObject, op: Op): SealedObject {
    match op
    case RewrapOp(v, args) => OrElse(Rewrap(c, v, o, args), o)
    case ResealOp(v, args) => OrElse(OpenAndReseal(c, v, o, args), o)
  }

  function OrElse(r: Result<SealedObject>, o: SealedObject): SealedObject {
    if r.Ok? then r.value else o
  }

  function DoAll(c: Suite, o: SealedObject, ops: seq<Op>): SealedObject
    decreases |ops|
  {
    if |ops| == 0 then o else DoAll(c, Do(c, o, ops[0]), ops[1..])
  }

  ghost predicate OpWithin(h: Hash, Q: set<Bytes>, op: Op) {
    match op
    case RewrapOp(_, args) =>
      StampsWithin(h, Q, args.cap, args.from.authorityId) && StampsWithin(h, Q, args.cap, args.making.state.authorityId)
    case ResealOp(_, args) =>
      StampsWithin(h, Q, args.seal.cap, args.seal.making.state.authorityId)
  }

  ghost function After(c: Suite, o: SealedObject, op: Op, p: Provenance): Provenance {
    match op
    case RewrapOp(v, args) => if Rewrap(c, v, o, args).Ok? then Rewrapped(p, o, args.making) else p
    case ResealOp(v, args) =>
      if OpenAndReseal(c, v, o, args).Ok?
      then Provenance(p.message, args.seal.cap, args.seal.dek, [args.seal.making])
      else p
  }

  /** The wrapper that an operation makes. */
  function MakingOf(op: Op): Making {
    match op
    case RewrapOp(_, args) => args.making
    case ResealOp(_, args) => args.seal.making
  }

  /** The capability that an operation is called with. */
  function CapOf(op: Op): Capability {
    match op
    case RewrapOp(_, args) => args.cap
    case ResealOp(_, args) => args.seal.cap
  }

  /** A wrapper making for `cap` that was there at the start, or that one of `ops` made, its verifier accepting. */
  ghost predicate Traced(p: Provenance, ops: seq<Op>, m: Making, cap: Capability) {
    || (m in p.makings && cap == p.cap)
    || exists op :: op in ops && MakingOf(op) == m && CapOf(op) == cap && op.v(m.state, m.transparencyProof).Ok?
  }

  lemma ResealKeeps(c: Suite, v: StateVerifier, o: SealedObject, args: ResealArgs, p: Provenance)
    requires Carries(c, o, p) && AeadBinds(c) && OpenAndReseal(c, v, o, args).Ok?
    ensures OpenAndReseal(c, v, o, args) == Seal(c, p.message, args.seal)
    ensures v(args.seal.making.state, args.seal.making.transparencyProof).Ok?
    ensures Open(c, v, args.sk, o, args.seal.cap, args.openProof, args.openState) == Ok(p.message)
    ensures Carries(c, OpenAndReseal(c, v, o, args).value,
                    Provenance(p.message, args.seal.cap, args.seal.dek, [args.seal.making]))
  {
    hide ValidateCapability, UnwrapDek, MakeWrapper, FindWrapper, PayloadAad, DistinctEpochs, Seal, Carries;
    OpensTo(c, v, o, args, p);
    SealCarries(c, p.message, args.seal);
  }

  lemma OpensTo(c: Suite, v: StateVerifier, o: SealedObject, args: ResealArgs, p: Provenance)
    requires Carries(c, o, p) && AeadBinds(c) && OpenAndReseal(c, v, o, args).Ok?
    ensures OpenAndReseal(c, v, o, args) == Seal(c, p.message, args.seal)
    ensures Open(c, v, args.sk, o, args.seal.cap, args.openProof, args.openState) == Ok(p.message)
  {
    hide ValidateCapability, UnwrapDek, MakeWrapper, FindWrapper, PayloadAad, DistinctEpochs, Seal, Carries;
    OpenReturnsTheMessage(c, v, args.sk, o, args.seal.cap, args.openProof, args.openState, p);
  }

  lemma StepKeeps(c: Suite, Q: set<Bytes>, o: SealedObject, op: Op, p: Provenance)
    requires Carries(c, o, p) && ProvenanceWithin(c.hash, Q, p) && CollisionFree(c.hash, Q) && AeadBinds(c)
    requires OpWithin(c.hash, Q, op)
    ensures Carries(c, Do(c, o, op), After(c, o, op, p))
    ensures ProvenanceWithin(c.hash, Q, After(c, o, op, p))
    ensures After(c, o, op, p).message == p.message
    ensures op.RewrapOp? ==>
      && After(c, o, op, p).cap == p.cap && After(c, o, op, p).dek == p.dek
      && Do(c, o, op).(wrappers := o.wrappers) == o && KeepsEpochs(o.wrappers, Do(c, o, op).wrappers)
    ensures forall m :: m in After(c, o, op, p).makings ==> Traced(p, [op], m, After(c, o, op, p).cap)
  {
    hide Rewrap, OpenAndReseal, Carries, StampsWithin, AeadBinds, CollisionFree, FindWrapper, Rewrapped, Seal;
    assert op in [op];
    if op.RewrapOp? {
      if Rewrap(c, op.v, o, op.rewrap).Ok? {
        RewrapKeeps(c, Q, op.v, o, op.rewrap, p);
      }
    } else {
      if OpenAndReseal(c, op.v, o, op.reseal).Ok? {
        ResealKeeps(c, op.v, o, op.reseal, p);
      }
    }
  }

  /**
    Plaintext preservation over whole runs: after sealing a message and any sequence of
    rewraps and reseals, failed ones included, the object still carries that message, so
    every open that succeeds returns it. Each of its wrappers was there at the start or was
    made by an operation of the run, for a state that its verifier accepted. Rewraps alone
    also keep the data key, the capability, every wrapped epoch, and everything but the
    wrapper list.
   */
  lemma {:induction false} RunKeepsTheMessage(
      c: Suite, Q: set<Bytes>, o: SealedObject, ops: seq<Op>, p: Provenance) returns (q: Provenance)
    requires Carries(c, o, p) && ProvenanceWithin(c.hash, Q, p) && CollisionFree(c.hash, Q) && AeadBinds(c)
    requires forall op :: op in ops ==> OpWithin(c.hash, Q, op)
    ensures Carries(c, DoAll(c, o, ops), q) && ProvenanceWithin(c.hash, Q, q) && q.message == p.message
    ensures forall m :: m in q.makings ==> Traced(p, ops, m, q.cap)
    ensures (forall op :: op in ops ==> op.RewrapOp?) ==>
      && q.cap == p.cap && q.dek == p.dek && DoAll(c, o, ops).(wrappers := o.wrappers) == o
      && KeepsEpochs(o.wrappers, DoAll(c, o, ops).wrappers)
    decreases |ops|
  {
    hide Do, Carries, ProvenanceWithin, OpWithin, AeadBinds, CollisionFree, After, FindWrapper, MakingOf, CapOf;
    if |ops| == 0 {
      q := p;
    } else {
      assert ops[0] in ops;
      StepKeeps(c, Q, o, ops[0], p);
      var next := After(c, o, ops[0], p);
      q := RunKeepsTheMessage(c, Q, Do(c, o, ops[0]), ops[1..], next);
      forall m | m in q.makings ensures Traced(p, ops, m, q.cap) {
        TraceExtends(p, next, ops, m, q.cap);
      }
    }
  }

  lemma TraceExtends(p: Provenance, next: Provenance, ops: seq<Op>, m: Making, cap: Capability)
    requires |ops| > 0 && Traced(next, ops[1..], m, cap)
    requires m in next.makings ==> Traced(p, ops[..1], m, next.cap)
    ensures Traced(p, ops, m, cap)
  {
    hide MakingOf, CapOf;
  }

  /** Whatever opens after sealing and any run is the sealed message. */
  lemma SealedRunOpensToItsMessage(
      c: Suite, Q: set<Bytes>, v: StateVerifier, message: Bytes, args: SealArgs, ops: seq<Op>,
      sk: RecipientSecretKey, cap: Capability, proof: CapabilityProof, state: AuthorityState)
    requires Seal(c, message, args).Ok? && StampsWithin(c.hash, Q, args.cap, args.making.state.authorityId)
    requires CollisionFree(c.hash, Q) && AeadBinds(c) && forall op :: op in ops ==> OpWithin(c.hash, Q, op)
    ensures DistinctEpochs(DoAll(c, Seal(c, message, args).value, ops).wrappers)
    ensures var r := Open(c, v, sk, DoAll(c, Seal(c, message, args).value, ops), cap, proof, state);
      r.Ok? ==> r.value == message
  {
    hide DoAll, Open, StampsWithin, OpWithin, AeadBinds, CollisionFree, Seal, MakeWrapper, PayloadAad, DistinctEpochs;
    SealCarries(c, message, args);
    var q := RunKeepsTheMessage(
      c, Q, Seal(c, message, args).value, ops, Provenance(message, args.cap, args.dek, [args.making]));
    var o := DoAll(c, Seal(c, message, args).value, ops);
    if Open(c, v, sk, o, cap, proof, state).Ok? {
      OpenReturnsTheMessage(c, v, sk, o, cap, proof, state, q);
    }
  }

  /**
    After sealing and any run, every wrapper of the object opens to the sealed message. It
    was made by the seal or by an operation of the run, and the holder of the matching key
    opens at its state, with the capability it was made for, exactly when the verifier of
    the moment accepts the state, the policy admits the epoch and the capability validates.
   */
  lemma SealedRunOpensAtEveryWrapper(
      c: Suite, Q: set<Bytes>, v: StateVerifier, message: Bytes, args: SealArgs, ops: seq<Op>, i: nat)
      returns (m: Making, cap: Capability)
    requires Seal(c, message, args).Ok? && StampsWithin(c.hash, Q, args.cap, args.making.state.authorityId)
    requires CollisionFree(c.hash, Q) && AeadBinds(c) && forall op :: op in ops ==> OpWithin(c.hash, Q, op)
    requires AeadDecrypts(c) && KemsAgree(c)
    requires i < |DoAll(c, Seal(c, message, args).value, ops).wrappers|
    ensures m.state.epoch == DoAll(c, Seal(c, message, args).value, ops).wrappers[i].epoch
    ensures
      || (m == args.making && cap == args.cap)
      || exists op :: op in ops && MakingOf(op) == m && CapOf(op) == cap && op.v(m.state, m.transparencyProof).Ok?
    ensures (forall op :: op in ops ==> op.RewrapOp?) ==> cap == args.cap
    ensures forall sk, proof | KeysMatch(c, m.pk, sk) ::
      var o := DoAll(c, Seal(c, message, args).value, ops);
      Open(c, v, sk, o, cap, proof, m.state) == Ok(message) <==>
        && v(m.state, m.transparencyProof).Ok? && PolicyAdmits(o, m.state.epoch)
        && ValidateCapability(c, cap, proof, m.state, RequestFor(o, m.state.epoch)).Ok?
  {
    hide DoAll, Open, StampsWithin, OpWithin, AeadBinds, CollisionFree, Seal, MakeWrapper, PayloadAad, DistinctEpochs;
    hide KeysMatch, KemsAgree, AeadDecrypts, ValidateCapability, PolicyAdmits, MakingOf, CapOf, KeepsEpochs;
    SealCarries(c, message, args);
    var p := Provenance(message, args.cap, args.dek, [args.making]);
    var q := RunKeepsTheMessage(c, Q, Seal(c, message, args).value, ops, p);
    var o := DoAll(c, Seal(c, message, args).value, ops);
    m, cap := q.makings[i], q.cap;
    assert m in q.makings;
    WrapperEpoch(c, o, q.cap, q.dek, m);
    forall sk, proof | KeysMatch(c, m.pk, sk)
      ensures Open(c, v, sk, o, cap, proof, m.state) == Ok(message) <==>
        && v(m.state, m.transparencyProof).Ok? && PolicyAdmits(o, m.state.epoch)
        && ValidateCapability(c, cap, proof, m.state, RequestFor(o, m.state.epoch)).Ok?
    {
      OpensExactly(c, v, sk, o, proof, q, i);
    }
  }

  /** With the matching key, the verifier, the policy and the capability decide whether a wrapped state opens. */
  lemma OpensExactly(
      c: Suite, v: StateVerifier, sk: RecipientSecretKey, o: SealedObject, proof: CapabilityProof,
      p: Provenance, i: nat)
    requires Carries(c, o, p) && i < |p.makings|
    requires AeadDecrypts(c) && KemsAgree(c) && KeysMatch(c, p.makings[i].pk, sk)
    ensures var state := p.makings[i].state;
      Open(c, v, sk, o, p.cap, proof, state) == Ok(p.message) <==>
        && v(state, p.makings[i].transparencyProof).Ok? && PolicyAdmits(o, state.epoch)
        && ValidateCapability(c, p.cap, proof, state, RequestFor(o, state.epoch)).Ok?
  {
    hide ValidateCapability, UnwrapDek, FindWrapper, PayloadAad, Carries, KeysMatch, KemsAgree, AeadDecrypts;
    hide MakeWrapper;
    var state := p.makings[i].state;
    MakingIsFound(c, o, p, i);
    if v(state, p.makings[i].transparencyProof).Ok? && PolicyAdmits(o, state.epoch)
      && ValidateCapability(c, p.cap, proof, state, RequestFor(o, state.epoch)).Ok?
    {
      MatchingKeyRecovers(c, sk, p.makings[i]);
      OpenSucceeds(c, v, sk, o, proof, p, i);
    }
  }

  /** With the matching key, a wrapped state opens to the message exactly when the object verifies there. */
  lemma OpensIffVerifies(
      c: Suite, v: StateVerifier, sk: RecipientSecretKey, o: SealedObject, proof: CapabilityProof,
      p: Provenance, i: nat)
    requires Carries(c, o, p) && i < |p.makings|
    requires AeadDecrypts(c) && KemsAgree(c) && KeysMatch(c, p.makings[i].pk, sk)
    ensures var m := p.makings[i];
      Open(c, v, sk, o, p.cap, proof, m.state) == Ok(p.message)
      <==> VerifyObject(c, v, o, p.cap, proof, m.state, m.transparencyProof).Ok?
  {
    hide ValidateCapability, Open, VerifyObject, Carries, KeysMatch, KemsAgree, AeadDecrypts;
    OpensExactly(c, v, sk, o, proof, p, i);
    VerifiesIff(c, v, o, p.cap, proof, p.makings[i].state, p.makings[i].transparencyProof);
  }

  /** Whatever opens, with any key, capability and state, recovered the secret of the wrapper it opened. */
  lemma OpenNeedsTheSecret(
      c: Suite, K: set<(Bytes32, Bytes, Bytes)>, v: StateVerifier, sk: RecipientSecretKey, o: SealedObject,
      cap: Capability, proof: CapabilityProof, state: AuthorityState, p: Provenance) returns (i: nat)
    requires Carries(c, o, p) && AeadBinds(c) && KdfBinds(c, K) && Open(c, v, sk, o, cap, proof, state).Ok?
    requires forall m :: m in p.makings ==>
      MakingQuery(c, o, p.cap, m) in K && OpeningQuery(c, sk, o, cap, state, m) in K
    ensures i < |p.makings| && p.makings[i].state.epoch == state.epoch && Recovers(c, sk, p.makings[i])
  {
    hide ValidateCapability, UnwrapDek, FindWrapper, PayloadAad, Recovers, AeadBinds, KdfBinds, DistinctEpochs;
    hide MakeWrapper, MakingQuery, OpeningQuery;
    i := FindWrapper(o.wrappers, state.epoch).value;
    var m := p.makings[i];
    assert m in p.makings;
    WrapperEpoch(c, o, p.cap, p.dek, m);
    UnwrapNeedsTheSecret(c, K, sk, o, cap, state, p.cap, p.dek, m);
  }

  /**
    The recipient gate: for every key, matching or not, a wrapped state opens exactly when
    the verifier, the policy and the capability admit it and the key recovers the secret.
   */
  lemma OpensForKeyIff(
      c: Suite, K: set<(Bytes32, Bytes, Bytes)>, v: StateVerifier, sk: RecipientSecretKey, o: SealedObject,
      proof: CapabilityProof, p: Provenance, i: nat)
    requires Carries(c, o, p) && i < |p.makings| && AeadDecrypts(c) && AeadBinds(c) && KdfBinds(c, K)
    requires MakingQuery(c, o, p.cap, p.makings[i]) in K
    requires OpeningQuery(c, sk, o, p.cap, p.makings[i].state, p.makings[i]) in K
    ensures var m := p.makings[i];
      Open(c, v, sk, o, p.cap, proof, m.state).Ok? <==>
        && v(m.state, m.transparencyProof).Ok? && PolicyAdmits(o, m.state.epoch)
        && ValidateCapability(c, p.cap, proof, m.state, RequestFor(o, m.state.epoch)).Ok?
        && Recovers(c, sk, m)
  {
    hide ValidateCapability, UnwrapDek, FindWrapper, PayloadAad, Carries, Recovers, AeadDecrypts, AeadBinds, KdfBinds;
    hide MakeWrapper, MakingQuery, OpeningQuery;
    var m := p.makings[i];
    MakingIsFound(c, o, p, i);
    if Open(c, v, sk, o, p.cap, proof, m.state).Ok? {
      UnwrapNeedsTheSecret(c, K, sk, o, p.cap, m.state, p.cap, p.dek, m);
    } else if v(m.state, m.transparencyProof).Ok? && PolicyAdmits(o, m.state.epoch) && Recovers(c, sk, m)
      && ValidateCapability(c, p.cap, proof, m.state, RequestFor(o, m.state.epoch)).Ok?
    {
      OpenSucceeds(c, v, sk, o, proof, p, i);
    }
  }

  // ----- rewrapping completes

  /** The holder of the matching key can always move a wrapped state forward inside the capability's window. */
  lemma RewrapSucceeds(c: Suite, v: StateVerifier, o: SealedObject, args: RewrapArgs, p: Provenance, i: nat)
    requires Carries(c, o, p) && i < |p.makings| && args.from == p.makings[i].state && args.cap == p.cap
    requires AeadDecrypts(c) && KemsAgree(c) && KeysMatch(c, p.makings[i].pk, args.sk)
    requires v(args.from, p.makings[i].transparencyProof).Ok?
    requires v(args.making.state, args.making.transparencyProof).Ok?
    requires ValidateCapability(c, p.cap, args.proof, args.from, RequestFor(o, args.from.epoch)).Ok?
    requires args.from.epoch < args.making.state.epoch
    requires p.cap.epochStart <= args.making.state.epoch <= p.cap.epochEnd
    ensures Rewrap(c, v, o, args)
      == Ok(o.(wrappers := PutWrapperInto(o.wrappers, MakeWrapper(c, o, p.cap, p.dek, args.making))))
  {
    hide ValidateCapability, UnwrapDek, FindWrapper, PayloadAad, MakeWrapper, KeysMatch, KemsAgree, PutWrapperInto;
    hide Carries;
    MakingIsFound(c, o, p, i);
    MatchingKeyRecovers(c, args.sk, p.makings[i]);
    MadeWrapperUnwraps(c, args.sk, o, p.cap, p.dek, p.makings[i]);
  }

  // ----- the object that rewrapping updates in place

  class ObjectCell {
    var current: SealedObject

    constructor (o: SealedObject)
      ensures current == o
    {
      current := o;
    }

    method AddEpochWrapper(c: Suite, v: StateVerifier, args: RewrapArgs) returns (r: Result<()>)
      modifies this
      ensures match Rewrap(c, v, old(current), args)
        case Ok(o) => r == Ok(()) && current == o
        case Err(e) => r == Err(e) && current == old(current)
    {
      hide ValidateCapability, UnwrapDek, FindWrapper, MakeWrapper;
      var to := args.making.state;
      var at := FindWrapper(current.wrappers, args.from.epoch);
      if at.None? {
        return Err(MissingWrapper);
      }
      var fromWrapper := current.wrappers[at.value];
      var _ :- v(args.from, fromWrapper.transparencyProof);
      var _ :- v(to, args.making.transparencyProof);
      var _ :- ValidateCapability(c, args.cap, args.proof, args.from, RequestFor(current, args.from.epoch));
      var dek :- UnwrapDek(c, args.sk, current, args.cap, args.from, fromWrapper);
      if to.epoch <= args.from.epoch {
        return Err(InvalidCapability);
      }
      if to.epoch < args.cap.epochStart || to.epoch > args.cap.epochEnd {
        return Err(InvalidCapability);
      }
      var w := MakeWrapper(c, current, args.cap, dek, args.making);
      WrapperEpoch(c, current, args.cap, dek, args.making);
      var existing := FindWrapper(current.wrappers, to.epoch);
      if existing.Some? {
        current := current.(wrappers := current.wrappers[existing.value := w]);
        return Ok(());
      }
      current := current.(wrappers := current.wrappers + [w]);
      r := Ok(());
    }
  }
}
