/** Authority state verification (src/kyriotes_csk2/verify.rs). */
module Verifier {
  import opened Octets
  import opened Codec
  import opened Merkle
  import opened Model
  import opened Crypto
  import opened TransparencyLog
  import opened Authority
  import opened Lifecycle
  import Tsig

  datatype TsigEvidence = TsigEvidence(authorizedKeys: seq<Bytes32>, signatures: Tsig.SignatureSet)

  datatype Evidence = Evidence(
    authorityId: Bytes,
    epoch: u64,
    epochPk: Bytes32,
    epochRootSig: Bytes64,
    epochCert: EpochKeyCert,
    tsig: Option<TsigEvidence>)

  // ----- the registry behaves as a map from authority and epoch to the latest evidence

  predicate IsFor(e: Evidence, authorityId: Bytes, epoch: u64) {
    e.authorityId == authorityId && e.epoch == epoch
  }

  function Position(entries: seq<Evidence>, authorityId: Bytes, epoch: u64): (r: Option<nat>)
    ensures r.Some? ==> r.value < |entries| && IsFor(entries[r.value], authorityId, epoch)
    ensures r.Some? ==> forall i :: 0 <= i < r.value ==> !IsFor(entries[i], authorityId, epoch)
    ensures r.None? ==> forall i :: 0 <= i < |entries| ==> !IsFor(entries[i], authorityId, epoch)
  {
    if entries == [] then None
    else if IsFor(entries[0], authorityId, epoch) then Some(0)
    else
      match Position(entries[1..], authorityId, epoch)
      case None => None
      case Some(i) => Some(i + 1)
  }

  function Find(entries: seq<Evidence>, authorityId: Bytes, epoch: u64): Option<Evidence> {
    match Position(entries, authorityId, epoch)
    case Some(i) => Some(entries[i])
    case None => None
  }

  function AddEvidence(entries: seq<Evidence>, evidence: Evidence): seq<Evidence> {
    match Position(entries, evidence.authorityId, evidence.epoch)
    case Some(i) => entries[i := evidence]
    case None => entries + [evidence]
  }

  lemma PositionIsFirst(entries: seq<Evidence>, authorityId: Bytes, epoch: u64, i: nat)
    requires i < |entries| && IsFor(entries[i], authorityId, epoch)
    requires forall j :: 0 <= j < i ==> !IsFor(entries[j], authorityId, epoch)
    ensures Position(entries, authorityId, epoch) == Some(i)
  {
    var r := Position(entries, authorityId, epoch);
    assert r.Some? && !(r.value < i) && !(i < r.value);
  }

  /** After adding, the evidence's own key finds it and every other key finds what it found before. */
  lemma RegistryIsAMap(entries: seq<Evidence>, evidence: Evidence, authorityId: Bytes, epoch: u64)
    ensures Find(AddEvidence(entries, evidence), authorityId, epoch) ==
      if IsFor(evidence, authorityId, epoch) then Some(evidence) else Find(entries, authorityId, epoch)
  {
    hide Position;
    var after := AddEvidence(entries, evidence);
    var own := Position(entries, evidence.authorityId, evidence.epoch);
    var was := Position(entries, authorityId, epoch);
    if IsFor(evidence, authorityId, epoch) {
      PositionIsFirst(after, authorityId, epoch, if own.Some? then own.value else |entries|);
    } else if was.Some? {
      PositionIsFirst(after, authorityId, epoch, was.value);
    } else {
      var now := Position(after, authorityId, epoch);
      assert now.Some? ==> now.value < |entries| && after[now.value] == entries[now.value];
    }
  }

  class AuthorityEvidenceRegistry {
    var entries: seq<Evidence>

    constructor ()
      ensures entries == []
    {
      entries := [];
    }

    method Add(evidence: Evidence)
      modifies this
      ensures entries == AddEvidence(old(entries), evidence)
      ensures Find(entries, evidence.authorityId, evidence.epoch) == Some(evidence)
    {
      hide Find, Position;
      RegistryIsAMap(entries, evidence, evidence.authorityId, evidence.epoch);
      match Position(entries, evidence.authorityId, evidence.epoch) {
        case Some(i) =>
          entries := entries[i := evidence];
        case None =>
          entries := entries + [evidence];
      }
    }
  }

  // ----- verifying a state

  datatype VerificationPath = Legacy | CertChain

  const STATE_SIG_TAG: string := "KYRIOTES-CSK2-AUTHORITY-STATE-SIG-v2"

  function SignedState(state: AuthorityState): Bytes {
    PutBytes(state.authorityRoot,
    PutBytes(state.revocationRoot,
    PutBytes(state.transparencyRoot,
    PutU64(state.epoch,
    PutBytes(state.authorityId,
    PutU64(Low64(state.revocationCount),
    PutBytes(state.prevEpochHash, [])))))))
  }

  function StateMessage(state: AuthorityState): Bytes {
    Tagged(STATE_SIG_TAG, SignedState(state))
  }

  /** The offline root certifies the epoch key, whose holders signed the epoch root. */
  ghost function VerifyCertChain(c: Suite, rootPk: Bytes32, e: Evidence, state: AuthorityState): Result<()> {
    var _ :- VerifyEpochCert(c, rootPk, e.epochCert);
    if state.epoch >= SaturatingAdd(e.epochCert.epoch, e.epochCert.validityWindow) then Err(AuthorityMismatch)
    else
      match e.tsig
      case Some(t) =>
        if Tsig.Accepts(c, state, t.signatures, t.authorizedKeys) then Ok(()) else Err(AuthorityMismatch)
      case None =>
        if c.verifySig(e.epochCert.epochPk, EpochRootMessage(state), e.epochRootSig)
        then Ok(())
        else Err(AuthorityMismatch)
  }

  /** `CryptoAuthorityVerifier::verify_state` */
  ghost function VerifyState(
      c: Suite, entries: seq<Evidence>, rootPk: Option<Bytes32>,
      state: AuthorityState, proof: TransparencyProof): Result<VerificationPath>
  {
    match Find(entries, state.authorityId, state.epoch)
    case None => Err(AuthorityMismatch)
    case Some(e) =>
      match rootPk
      case Some(pk) =>
        var _ :- VerifyCertChain(c, pk, e, state);
        var _ :- VerifyTransparencyProof(c.hash, state, proof);
        Ok(CertChain)
      case None =>
        if !c.verifySig(e.epochPk, StateMessage(state), e.epochRootSig) then Err(AuthorityMismatch)
        else
          var _ :- VerifyTransparencyProof(c.hash, state, proof);
          Ok(Legacy)
  }

  /** Whatever the verifier refuses, it refuses as a mismatch of the authority state. */
  lemma RefusalIsMismatch(
      c: Suite, entries: seq<Evidence>, rootPk: Option<Bytes32>, state: AuthorityState, proof: TransparencyProof)
    ensures var r := VerifyState(c, entries, rootPk, state, proof); r.Err? ==> r.error == AuthorityMismatch
  {
    hide Fold, TransparencyLeaf, EpochRootMessage, StateMessage, CertMessage, Find, Tsig.Accepts;
  }

  /** `verify_state` with the counting loop of the threshold branch run in place. */
  method CheckState(
      c: Suite, registry: AuthorityEvidenceRegistry, rootPk: Option<Bytes32>,
      state: AuthorityState, proof: TransparencyProof) returns (r: Result<VerificationPath>)
    ensures r == VerifyState(c, registry.entries, rootPk, state, proof)
  {
    hide CertMessage, EpochRootMessage, StateMessage, VerifyTransparencyProof, Position, Tsig.Accepts;
    var found := Find(registry.entries, state.authorityId, state.epoch);
    if found.None? {
      return Err(AuthorityMismatch);
    }
    var e := found.value;
    var path;
    if rootPk.Some? {
      var _ :- VerifyEpochCert(c, rootPk.value, e.epochCert);
      if state.epoch >= SaturatingAdd(e.epochCert.epoch, e.epochCert.validityWindow) {
        return Err(AuthorityMismatch);
      }
      if e.tsig.Some? {
        var t := Tsig.TsigVerify(c, state, e.tsig.value.signatures, e.tsig.value.authorizedKeys);
        if t.Err? {
          return Err(AuthorityMismatch);
        }
      } else if !c.verifySig(e.epochCert.epochPk, EpochRootMessage(state), e.epochRootSig) {
        return Err(AuthorityMismatch);
      }
      path := CertChain;
    } else {
      if !c.verifySig(e.epochPk, StateMessage(state), e.epochRootSig) {
        return Err(AuthorityMismatch);
      }
      path := Legacy;
    }
    var _ :- VerifyTransparencyProof(c.hash, state, proof);
    r := Ok(path);
  }

  // ----- the certificate's window

  /** The epochs that a certificate is documented to cover. */
  predicate InWindow(cert: EpochKeyCert, epoch: u64) {
    cert.epoch <= epoch < cert.epoch + cert.validityWindow
  }

  /**
    The verifier compares a state's epoch with the end of the window only: an accepted
    state lies in its certificate's window if and only if it is not before its start.
   */
  lemma AcceptedIsInWindowIff(
      c: Suite, entries: seq<Evidence>, rootPk: Bytes32, state: AuthorityState, proof: TransparencyProof)
    requires VerifyState(c, entries, Some(rootPk), state, proof).Ok?
    ensures var cert := Find(entries, state.authorityId, state.epoch).value.epochCert;
      InWindow(cert, state.epoch) <==> cert.epoch <= state.epoch
  {
    hide VerifyTransparencyProof, EpochRootMessage, CertMessage, Find, Tsig.Accepts;
  }

  /** The failing family: any committed state is accepted under a later certificate of any window, even an empty one. */
  lemma EarlyStateIsAccepted(
      c: Suite, log: seq<Entry>, base: AuthorityState, rootSk: Bytes32, epochSk: Bytes32, certEpoch: u64, window: u64)
    requires SignaturesVerify(c) && Keyed(log) && Commit(c.hash, log, base).Ok? && base.epoch < certEpoch
    ensures var commit := Commit(c.hash, log, base).value.1;
      var cert := IssueEpochCert(c, rootSk, c.signingPk(epochSk), certEpoch, window);
      var e := Evidence(base.authorityId, base.epoch, c.signingPk(epochSk),
                        c.sign(epochSk, EpochRootMessage(commit.state)), cert, None);
      && VerifyState(c, [e], Some(c.signingPk(rootSk)), commit.state, commit.proof) == Ok(CertChain)
      && !InWindow(cert, commit.state.epoch)
  {
    hide VerifyTransparencyProof, EpochRootMessage, CertMessage, ProofAt, CurrentRoot, TransparencyLeaf;
    hide FindIndex, Keyed;
    CommittedProofVerifies(c.hash, log, base);
  }

  // ----- what an accepted state means

  /** Position `i` of the key list submitted a valid signature. */
  ghost predicate SignedAt(c: Suite, t: TsigEvidence, msg: Bytes, i: nat) {
    i < |t.authorizedKeys|
    && exists p :: p in t.signatures.partials && Tsig.IsValid(c, t.authorizedKeys, msg, p) && p.signerIndex == i
  }

  /** What the certificate path asks of the evidence. */
  ghost predicate Certified(c: Suite, rootPk: Bytes32, e: Evidence, state: AuthorityState) {
    && c.verifySig(rootPk, CertMessage(e.epochCert.epochPk, e.epochCert.epoch, e.epochCert.validityWindow),
                   e.epochCert.signature)
    && state.epoch < e.epochCert.epoch + e.epochCert.validityWindow && state.epoch < U64_MAX
    && match e.tsig
       case None => c.verifySig(e.epochCert.epochPk, EpochRootMessage(state), e.epochRootSig)
       case Some(t) =>
         && 0 < t.signatures.threshold <= |t.authorizedKeys|
         && exists signers: set<nat> ::
           && |signers| >= t.signatures.threshold
           && forall i :: i in signers ==> SignedAt(c, t, Tsig.SigningMessage(state), i)
  }

  /** What each path asks of the evidence. */
  ghost predicate Vouched(c: Suite, rootPk: Option<Bytes32>, e: Evidence, state: AuthorityState) {
    match rootPk
    case None => c.verifySig(e.epochPk, StateMessage(state), e.epochRootSig)
    case Some(pk) => Certified(c, pk, e, state)
  }

  /**
    Every acceptance rests on registered evidence and on a transparency proof that verifies.
    Without a root key the registered key signed the whole state. With one, the root
    certified the epoch key for an epoch before the end of its window, and that key, or
    enough distinct positions of the key list, signed the epoch root.
   */
  lemma AcceptanceMeans(
      c: Suite, entries: seq<Evidence>, rootPk: Option<Bytes32>, state: AuthorityState, proof: TransparencyProof)
    requires VerifyState(c, entries, rootPk, state, proof).Ok?
    ensures VerifyTransparencyProof(c.hash, state, proof).Ok?
    ensures exists e :: e in entries && IsFor(e, state.authorityId, state.epoch) && Vouched(c, rootPk, e, state)
    ensures VerifyState(c, entries, rootPk, state, proof) == Ok(if rootPk.Some? then CertChain else Legacy)
  {
    hide VerifyTransparencyProof, EpochRootMessage, StateMessage, CertMessage, Position, Tsig.SigningMessage;
    hide Tsig.First;
    var e := Find(entries, state.authorityId, state.epoch).value;
    assert e in entries;
    if rootPk.Some? && e.tsig.Some? {
      var t, msg := e.tsig.value, Tsig.SigningMessage(state);
      var signers := Tsig.Signers(c, t.authorizedKeys, msg, t.signatures.partials);
      forall i | i in signers
        ensures SignedAt(c, t, msg, i)
      {
        var a := Tsig.FirstIsSubmitted(t.signatures.partials, i);
        assert Tsig.IsValid(c, t.authorizedKeys, msg, t.signatures.partials[a]);
      }
    }
  }

  /** The legacy path accepts exactly what the registered key signed and the log proves. */
  lemma LegacyAcceptsIff(c: Suite, entries: seq<Evidence>, state: AuthorityState, proof: TransparencyProof)
    ensures VerifyState(c, entries, None, state, proof).Ok? <==>
      && Find(entries, state.authorityId, state.epoch).Some?
      && var e := Find(entries, state.authorityId, state.epoch).value;
      && c.verifySig(e.epochPk, StateMessage(state), e.epochRootSig)
      && VerifyTransparencyProof(c.hash, state, proof).Ok?
  {
    hide VerifyTransparencyProof, StateMessage, Find;
  }

  /** The certificate path accepts single-signature evidence exactly when it is certified and the log proves it. */
  lemma CertChainAcceptsIff(
      c: Suite, entries: seq<Evidence>, rootPk: Bytes32, state: AuthorityState, proof: TransparencyProof)
    requires Find(entries, state.authorityId, state.epoch).Some?
    requires Find(entries, state.authorityId, state.epoch).value.tsig.None?
    ensures VerifyState(c, entries, Some(rootPk), state, proof).Ok? <==>
      && Certified(c, rootPk, Find(entries, state.authorityId, state.epoch).value, state)
      && VerifyTransparencyProof(c.hash, state, proof).Ok?
  {
    hide VerifyTransparencyProof, EpochRootMessage, CertMessage, Find;
  }

  /** A legacy signature names the whole state but its root key. */
  lemma StateMessageBinds(a: AuthorityState, b: AuthorityState)
    requires StateMessage(a) == StateMessage(b) && EncodableState(a) && EncodableState(b)
    ensures SameEpochRoot(a, b) && SameCommitment(a, b)
  {
    hide PutU64, PutBytes, TakeU64, TakeBytesLimited, TakeFixed, TakeText, ValidUtf8;
  }

  /** Everything that evidence could sign for `state` is among the signed messages. */
  ghost predicate SignedWithin(M: set<Bytes>, state: AuthorityState) {
    && EncodableState(state) && StateMessage(state) in M
    && EpochRootMessage(state) in M && Tsig.SigningMessage(state) in M
  }

  /** Evidence of a single signer, or of more than half of the signers. */
  predicate Decisive(e: Evidence) {
    e.tsig.Some? ==> 2 * e.tsig.value.signatures.threshold > Tsig.Reach(|e.tsig.value.authorizedKeys|)
  }

  /**
    One registry vouches for at most one epoch root per authority and epoch, on each of the
    three paths: the legacy signature, the single signature and a majority threshold.
   */
  lemma RegistryVouchesForOneRoot(
      c: Suite, M: set<Bytes>, entries: seq<Evidence>, rootPk: Option<Bytes32>,
      a: AuthorityState, proofA: TransparencyProof, b: AuthorityState, proofB: TransparencyProof)
    requires SignaturesBind(c, M) && SignedWithin(M, a) && SignedWithin(M, b)
    requires VerifyState(c, entries, rootPk, a, proofA).Ok? && VerifyState(c, entries, rootPk, b, proofB).Ok?
    requires a.authorityId == b.authorityId && a.epoch == b.epoch
    requires rootPk.Some? ==> Decisive(Find(entries, a.authorityId, a.epoch).value)
    ensures SameEpochRoot(a, b)
  {
    hide VerifyTransparencyProof, EpochRootMessage, StateMessage, CertMessage, Find, Tsig.Accepts, Tsig.SigningMessage;
    var e := Find(entries, a.authorityId, a.epoch).value;
    if rootPk.None? {
      StateMessageBinds(a, b);
    } else if e.tsig.Some? {
      Tsig.MajorityVouchesForOneRoot(c, M, a, b, e.tsig.value.signatures, e.tsig.value.authorizedKeys);
    } else {
      EpochRootMessageBinds(a, b);
    }
  }

  /**
    Across registries: two single-signature acceptances that rest on the same certificate
    signature and the same epoch root signature rest on one certificate and vouch for one
    epoch root, whatever authorities and epochs they were registered for.
   */
  lemma SharedSignaturesShareRoot(
      c: Suite, M: set<Bytes>, rootPk: Bytes32, xs: seq<Evidence>, a: AuthorityState, proofA: TransparencyProof,
      ys: seq<Evidence>, b: AuthorityState, proofB: TransparencyProof)
    requires SignaturesBind(c, M) && SignedWithin(M, a) && SignedWithin(M, b)
    requires VerifyState(c, xs, Some(rootPk), a, proofA).Ok? && VerifyState(c, ys, Some(rootPk), b, proofB).Ok?
    requires var e, f := Find(xs, a.authorityId, a.epoch).value, Find(ys, b.authorityId, b.epoch).value;
      && e.tsig.None? && f.tsig.None? && e.epochRootSig == f.epochRootSig
      && e.epochCert.signature == f.epochCert.signature
      && CertMessage(e.epochCert.epochPk, e.epochCert.epoch, e.epochCert.validityWindow) in M
      && CertMessage(f.epochCert.epochPk, f.epochCert.epoch, f.epochCert.validityWindow) in M
    ensures Find(xs, a.authorityId, a.epoch).value.epochCert == Find(ys, b.authorityId, b.epoch).value.epochCert
    ensures SameEpochRoot(a, b)
  {
    hide VerifyTransparencyProof, EpochRootMessage, StateMessage, CertMessage, Find, Tsig.SigningMessage;
    var e, f := Find(xs, a.authorityId, a.epoch).value, Find(ys, b.authorityId, b.epoch).value;
    OneSignatureOneCertificate(c, M, rootPk, e.epochCert, f.epochCert);
    EpochRootMessageBinds(a, b);
  }

  /** A registry that grows by evidence for other keys answers as before: acceptance lasts. */
  lemma GrowingRegistryKeepsAnswers(
      c: Suite, entries: seq<Evidence>, evidence: Evidence, rootPk: Option<Bytes32>,
      state: AuthorityState, proof: TransparencyProof)
    requires !IsFor(evidence, state.authorityId, state.epoch)
    ensures VerifyState(c, AddEvidence(entries, evidence), rootPk, state, proof)
      == VerifyState(c, entries, rootPk, state, proof)
  {
    hide VerifyCertChain, VerifyTransparencyProof, StateMessage, Find, AddEvidence;
    RegistryIsAMap(entries, evidence, state.authorityId, state.epoch);
  }

  /**
    A threshold of at most half vouches for two roots: for any signers and any two states of
    one authority and epoch, one piece of evidence has both accepted, each with its own log.
   */
  lemma MinorityVouchesForTwoRoots(
      c: Suite, a: AuthorityState, b: AuthorityState, sks: seq<Bytes32>, keys: seq<Bytes32>, t: u32,
      rootSk: Bytes32, epochPk: Bytes32) returns (e: Evidence)
    requires SignaturesVerify(c) && 0 < 2 * t <= Tsig.Reach(|sks|) && |keys| == |sks|
    requires forall i | 0 <= i < |keys| :: keys[i] == c.signingPk(sks[i])
    requires a.authorityId == b.authorityId && a.epoch == b.epoch < U64_MAX
    ensures e.tsig.Some? && e.tsig.value.signatures.threshold == t && e.tsig.value.authorizedKeys == keys
    ensures forall state | state == a || state == b ::
      Commit(c.hash, [], state).Ok? &&
      var commit := Commit(c.hash, [], state).value.1;
      VerifyState(c, [e], Some(c.signingPk(rootSk)), commit.state, commit.proof) == Ok(CertChain)
  {
    hide VerifyTransparencyProof, CertMessage, ProofAt, CurrentRoot, TransparencyLeaf, Tsig.Accepts;
    assert Commit(c.hash, [], a).Ok? && Commit(c.hash, [], b).Ok?;
    var a', b' := Commit(c.hash, [], a).value.1.state, Commit(c.hash, [], b).value.1.state;
    Tsig.SplitSetIsAcceptedTwice(c, a', b', sks, t, keys);
    e := Evidence(a.authorityId, a.epoch, epochPk, Repeat(0, 64), IssueEpochCert(c, rootSk, epochPk, a.epoch, 1),
                  Some(TsigEvidence(keys, Tsig.SplitSet(c, a', b', sks, t))));
    CommittedProofVerifies(c.hash, [], a);
    CommittedProofVerifies(c.hash, [], b);
  }

  /**
    Signatures and log together: two accepted states of one authority and epoch, the first
    against a root that the log had at some moment, are the same state up to the root key, and
    that state was committed.
   */
  lemma AcceptedStateIsUnique(
      c: Suite, Q: set<Bytes>, M: set<Bytes>, ops: seq<LogOp>, m: nat, entries: seq<Evidence>, rootPk: Option<Bytes32>,
      a: AuthorityState, proofA: TransparencyProof, b: AuthorityState, proofB: TransparencyProof)
    requires SignaturesBind(c, M) && SignedWithin(M, a) && SignedWithin(M, b)
    requires VerifyState(c, entries, rootPk, a, proofA).Ok? && VerifyState(c, entries, rootPk, b, proofB).Ok?
    requires a.authorityId == b.authorityId && a.epoch == b.epoch
    requires rootPk.Some? ==> Decisive(Find(entries, a.authorityId, a.epoch).value)
    requires m <= |ops| && a.transparencyRoot == CurrentRoot(c.hash, Run(c.hash, ops[..m]))
    requires Ideal(c.hash, Q) && RunWithin(Q, ops) && Committable(Q, a) && Committable(Q, b)
    requires TreeWithin(c.hash, Leaves(Run(c.hash, ops[..m])), Q)
    requires ProofWithin(c.hash, proofA, Q) && ProofWithin(c.hash, proofB, Q)
    ensures b.(rootPk := a.rootPk) == a
    ensures exists e :: e in Run(c.hash, ops[..m]) && Records(c.hash, e, a)
  {
    hide VerifyTransparencyProof, VerifyCertChain, StateMessage, Find, Decisive, SignedWithin, SignaturesBind;
    hide Ideal, RunWithin, Committable, TreeWithin, ProofWithin, CurrentRoot, Run;
    RegistryVouchesForOneRoot(c, M, entries, rootPk, a, proofA, b, proofB);
    AcceptanceMeans(c, entries, rootPk, a, proofA);
    AcceptanceMeans(c, entries, rootPk, b, proofB);
    NonEquivocation(c.hash, Q, ops, m, m, a, proofA, b, proofB);
    PrefixWithin(Q, ops, m);
    var i := AcceptedIsLogged(c.hash, Q, ops[..m], a, proofA);
    assert Run(c.hash, ops[..m])[i] in Run(c.hash, ops[..m]);
  }

  lemma PrefixWithin(Q: set<Bytes>, ops: seq<LogOp>, m: nat)
    requires m <= |ops| && RunWithin(Q, ops)
    ensures RunWithin(Q, ops[..m])
  {
  }

  /** The root key is the one field outside that: the verifier never reads it from the state. */
  lemma RootKeyIsNotRead(
      c: Suite, entries: seq<Evidence>, rootPk: Option<Bytes32>, state: AuthorityState, proof: TransparencyProof,
      other: Bytes32)
    ensures VerifyState(c, entries, rootPk, state.(rootPk := other), proof)
      == VerifyState(c, entries, rootPk, state, proof)
  {
    hide CertMessage, Find, Tsig.Signers, Fold;
    var s := state.(rootPk := other);
    assert EpochFields(s) == EpochFields(state) && StateBody(s) == StateBody(state);
  }

  /** `EpochRotation::into_verifier`: the evidence a rotation registers. */
  function EvidenceOf(r: Rotation): Evidence {
    Evidence(r.state.authorityId, r.state.epoch, r.epochPk, r.sigma, r.epochCert, None)
  }

  /**
    A rotation's own verifier accepts the state and proof that the rotation returns, if and
    only if the certificate's window is open at the new epoch.
   */
  lemma RotationVerifies(c: Suite, w: World, base: AuthorityState, args: RotateArgs)
    requires SignaturesVerify(c) && base.rootPk == c.signingPk(args.rootSk) && Keyed(w.entries)
    requires RotateEpoch(c, w, base, args).result.Ok?
    ensures var r := RotateEpoch(c, w, base, args).result.value;
      VerifyState(c, AddEvidence([], EvidenceOf(r)), Some(r.state.rootPk), r.state, r.transparencyProof).Ok?
      <==> args.validityWindow > 0 && args.newEpoch < U64_MAX
  {
    hide CertMessage, EpochRootMessage, VerifyTransparencyProof, Find, Position, AddEvidence;
    hide FindIndex, TransparencyLeaf, Keyed, ProofAt, CurrentRoot;
    var r := RotateEpoch(c, w, base, args).result.value;
    RegistryIsAMap([], EvidenceOf(r), r.state.authorityId, r.state.epoch);
    CommittedProofVerifies(c.hash, w.entries, RotatedState(base, args.newEpoch, args.prevEpochHash));
  }

  /** What a commit returns verifies on the spot. */
  lemma CommittedProofVerifies(h: Hash, entries: seq<Entry>, state: AuthorityState)
    requires Keyed(entries) && Commit(h, entries, state).Ok?
    ensures var commit := Commit(h, entries, state).value.1;
      VerifyTransparencyProof(h, commit.state, commit.proof).Ok?
  {
    hide Commit, TransparencyLeaf, ProofAt, CurrentRoot, VerifyTransparencyProof;
    var i := CommitRecords(h, entries, state);
    var grown := Commit(h, entries, state).value.0;
    CommitKeepsKeyed(h, entries, state);
    RecordedIsProvable(h, grown, i, state);
  }

  lemma CommitKeepsKeyed(h: Hash, entries: seq<Entry>, state: AuthorityState)
    requires Keyed(entries) && Commit(h, entries, state).Ok?
    ensures Keyed(Commit(h, entries, state).value.0)
  {
    hide Commit, Keyed;
    ApplyKeeps(h, entries, CommitOp(state));
  }
}
