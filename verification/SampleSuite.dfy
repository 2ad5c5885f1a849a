/**
  A suite and a session that meet the assumptions of the theorems together, so that none of
  them holds for want of an instance. The suite has no security at all.
 */
module SampleSuite {
  import opened Octets
  import opened Policy
  import opened Merkle
  import opened Model
  import opened Crypto
  import opened Authority
  import opened Lifecycle
  import opened Sealing
  import opened Rewrapping
  import opened EndToEnd

  /** A self-delimiting copy of `a` in front of `tail`. */
  function Escape(a: Bytes, tail: Bytes): Bytes {
    if a == [] then [0] + tail else [1, a[0]] + Escape(a[1..], tail)
  }

  function Unescape(b: Bytes): Option<(Bytes, Bytes)> {
    if b == [] then None
    else if b[0] == 0 then Some(([], b[1..]))
    else if |b| < 2 then None
    else
      match Unescape(b[2..])
      case None => None
      case Some((a, tail)) => Some(([b[1]] + a, tail))
  }

  lemma {:induction false} UnescapeInverts(a: Bytes, tail: Bytes)
    ensures Unescape(Escape(a, tail)) == Some((a, tail))
  {
    if a != [] {
      UnescapeInverts(a[1..], tail);
      assert Escape(a, tail)[2..] == Escape(a[1..], tail);
      assert a == [a[0]] + a[1..];
    }
  }

  /** An encryption that carries its key, nonce and associated data in the clear. */
  function OpenEncrypt(k: Bytes32, n: Bytes12, a: Bytes, m: Bytes): Bytes {
    k + n + Escape(a, m)
  }

  function OpenDecrypt(k: Bytes32, n: Bytes12, a: Bytes, ct: Bytes): Option<Bytes> {
    if |ct| < 44 || ct[..32] != k || ct[32..44] != n then None
    else
      match Unescape(ct[44..])
      case None => None
      case Some((a', m)) => if a' == a then Some(m) else None
  }

  lemma OpenDecryptDecides(k: Bytes32, n: Bytes12, a: Bytes, m: Bytes, k': Bytes32, n': Bytes12, a': Bytes)
    ensures OpenDecrypt(k', n', a', OpenEncrypt(k, n, a, m))
      == if k' == k && n' == n && a' == a then Some(m) else None
  {
    var ct := OpenEncrypt(k, n, a, m);
    UnescapeInverts(a, m);
    assert ct[..32] == k && ct[32..44] == n && ct[44..] == Escape(a, m);
  }

  /** Byte 25 of every input that can be told apart by it: 'L' in a capability leaf, 'S' in a stamp. */
  function TagHash(x: Bytes): Bytes32 {
    Repeat(if |x| > 25 then x[25] else 1, 32)
  }

  /** The part of an issuance message that holds the authority root. */
  function Excerpt(m: Bytes): Bytes32 {
    if |m| < 40 then ZERO else m[|m| - 40..|m| - 8]
  }

  function ExcerptSign(sk: Bytes32, m: Bytes): Bytes64 { sk + Excerpt(m) }
  function ExcerptVerify(pk: Bytes32, m: Bytes, sig: Bytes64): bool { sig == pk + Excerpt(m) }
  function FirstOf(salt: Bytes32, ikm: Bytes, info: Bytes): Bytes32 { if |ikm| < 32 then ZERO else ikm[..32] }
  function Public0(x: Bytes32): Bytes32 { ZERO }
  function Dh0(a: Bytes32, b: Bytes32): Bytes32 { ZERO }
  function Ek0(seed: Bytes64): Bytes { Repeat(0, KEM_EK_BYTES) }
  function Encaps0(ek: Bytes, coins: Bytes32): Option<(Bytes, Bytes32)> { Some((Repeat(0, KEM_CT_BYTES), ZERO)) }
  function Decaps0(seed: Bytes64, ct: Bytes): Bytes32 { ZERO }

  const SAMPLE: Suite := Suite(
    TagHash, x => x, ExcerptSign, ExcerptVerify, OpenEncrypt, OpenDecrypt, FirstOf, Public0, Dh0, Ek0, Encaps0, Decaps0)

  lemma AssumptionsAreConsistent()
    ensures SignaturesVerify(SAMPLE) && AeadDecrypts(SAMPLE) && AeadBinds(SAMPLE) && KemsAgree(SAMPLE)
  {
    forall k, n, a, m, k', n', a'
      ensures SAMPLE.decrypt(k', n', a', SAMPLE.encrypt(k, n, a, m))
        == if k' == k && n' == n && a' == a then Some(m) else None
    {
      OpenDecryptDecides(k, n, a, m, k', n', a');
    }
  }

  // ----- issuance

  lemma ExcerptIsTheRoot(leaf: Bytes32, root: Bytes32, epoch: u64)
    ensures Excerpt(IssuanceMessage(leaf, root, epoch)) == root
  {
    hide LittleEndian;
    var body := leaf + root + LittleEndian(epoch, 8);
    var m := IssuanceMessage(leaf, root, epoch);
    assert m[|ISSUE_TAG|..] == body && |body| == 72;
    assert m[|m| - 40..|m| - 8] == body[32..64] == root;
  }

  /** Signatures of this suite bind issuance messages for any two roots. */
  lemma IssuanceSignaturesBind(leaf: Bytes32, root: Bytes32, other: Bytes32, epoch: u64)
    ensures SignaturesBind(SAMPLE, {IssuanceMessage(leaf, root, epoch), IssuanceMessage(leaf, other, epoch)})
  {
    hide IssuanceMessage;
    ExcerptIsTheRoot(leaf, root, epoch);
    ExcerptIsTheRoot(leaf, other, epoch);
    forall pk, sig | ExcerptVerify(pk, IssuanceMessage(leaf, root, epoch), sig)
      && ExcerptVerify(pk, IssuanceMessage(leaf, other, epoch), sig)
      ensures root == other
    {
      assert (pk + root)[32..] == root && (pk + other)[32..] == other;
    }
  }

  /** Key derivation of this suite tells any two shared secrets apart. */
  lemma SecretsDeriveApart(secret: Bytes32, other: Bytes32, state: AuthorityState, ctx: Bytes32, policyHash: Bytes32)
    ensures KdfBinds(SAMPLE, {KekQuery(SAMPLE, secret, state, ctx, policyHash),
                              KekQuery(SAMPLE, other, state, ctx, policyHash)})
  {
    hide AuthorityDigest;
    assert (secret + ctx)[..32] == secret && (other + ctx)[..32] == other;
  }

  // ----- a session

  const CAP: Capability :=
    Capability(1, [], [], Rights(0), ZERO, 0, 10, 0, ZERO, Repeat(0, 16))

  const START: Live :=
    Live(World(Tree([], []), []), AuthorityState(ZERO, ZERO, ZERO, 1, [], ZERO, 0, ZERO))

  function AcceptAll(state: AuthorityState, proof: TransparencyProof): Result<()> { Ok(()) }

  lemma CapabilityIsIssued() returns (live: Live, issuance: IssuanceProof)
    ensures Holds(SAMPLE, live, CAP, issuance) && live.state.epoch == 1 && live.state.authorityId == []
    ensures |live.world.entries| == 1 && live.world.entries[0].epoch == 1
  {
    hide CertMessage, IssuanceMessage, CapabilityLeaf, CapabilityStamp, TransparencyLeaf;
    AssumptionsAreConsistent();
    var cert := IssueEpochCert(SAMPLE, ZERO, ZERO, 1, 1);
    var out := IssueAndCommit(SAMPLE, START.world, CAP, ZERO, cert, START.state);
    IssueEstablishesHeld(SAMPLE, START, CAP, ZERO, cert);
    live, issuance := Live(out.world, out.result.value.1.state), out.result.value.0;
  }

  /** The hypotheses of `IssuanceIsTiedToItsRoot` hold together, for every root it could be asked about. */
  lemma IssuanceHypothesesHold(root: Bytes32) returns (M: set<Bytes>, cert: EpochKeyCert)
    ensures SignaturesVerify(SAMPLE) && SignaturesBind(SAMPLE, M)
    ensures CanIssue(SAMPLE, ZERO, ZERO, cert) && CoversOwnEpoch(cert)
    ensures IssueCapability(SAMPLE, Tree([], []), CAP, ZERO, cert).Ok?
    ensures forall r | r in {root, Root(TagHash, [CapabilityLeaf(TagHash, CAP)])} ::
      IssuanceMessage(CapabilityLeaf(TagHash, CAP), r, cert.epoch) in M
  {
    hide CertMessage, IssuanceMessage, CapabilityLeaf, SignaturesBind, Root;
    AssumptionsAreConsistent();
    cert := IssueEpochCert(SAMPLE, ZERO, ZERO, 1, 1);
    var leaf, own := CapabilityLeaf(TagHash, CAP), Root(TagHash, [CapabilityLeaf(TagHash, CAP)]);
    M := {IssuanceMessage(leaf, own, 1), IssuanceMessage(leaf, root, 1)};
    IssuanceSignaturesBind(leaf, own, root, 1);
  }

  function MakingFor(state: AuthorityState): Making {
    Making(RecipientPublicKey(ZERO, None), state, TransparencyProof(ZERO, [], 0), Repeat(0, 12), ZERO, ZERO)
  }

  const SK: RecipientSecretKey := RecipientSecretKey(ZERO, None)

  /**
    The hypotheses of `SealMaintainRewrapOpen` hold together for a seal, a rotation and a
    rewrap, and the rewrap is one that succeeds.
   */
  lemma SessionHypothesesHold(message: Bytes)
      returns (live: Live, issuance: IssuanceProof, sealing: SealArgs, later: Live, args: RewrapArgs, es: seq<Event>)
    ensures AeadDecrypts(SAMPLE) && KemsAgree(SAMPLE) && Holds(SAMPLE, live, CAP, issuance)
    ensures SealsUnder(SAMPLE, live, CAP, issuance, sealing) && Seal(SAMPLE, message, sealing).Ok?
    ensures es == [AuthorityEvent(Rotate(RotateArgs(ZERO, ZERO, 2, 1, ZERO))), RewrapEvent(AcceptAll, args)]
    ensures var o := Seal(SAMPLE, message, sealing).value;
      && AllReady(SAMPLE, Begin(live, o, sealing.making), CAP, issuance, es)
      && Rewrap(SAMPLE, AcceptAll, o, args).Ok?
    ensures sealing.making.state.authorityId == args.from.authorityId == args.making.state.authorityId == []
    ensures sealing.cap == args.cap == CAP && sealing.policy == Current
  {
    hide CapabilityLeaf, CapabilityStamp, FreshProof, ValidateCapability, MakeWrapper, PayloadAad, Kept, Maintain;
    hide Holds, Rewrap, AeadDecrypts, KemsAgree, Covers;
    AssumptionsAreConsistent();
    live, issuance := CapabilityIsIssued();
    var req := OpenRequest([], Rights(0), ZERO, 1);
    CoversIsReflexive(0, 16);
    HeldCapabilityValidates(SAMPLE, live, CAP, issuance, req);
    var proof := FreshProof(SAMPLE, live, CAP, issuance).value;
    sealing := SealArgs(CAP, proof, req, Current, Repeat(0, 12), ZERO, MakingFor(live.state));
    SealKeeps(SAMPLE, live, CAP, issuance, message, sealing);
    var rotate := Rotate(RotateArgs(ZERO, ZERO, 2, 1, ZERO));
    later := RotationSucceeds(live);
    UpkeepKeepsHeld(SAMPLE, live, rotate, CAP, issuance);
    args := RewrapArgs(SK, CAP, proof, live.state, MakingFor(later.state));
    es := [AuthorityEvent(rotate), RewrapEvent(AcceptAll, args)];
    var p := Provenance(message, CAP, ZERO, [sealing.making]);
    var s := Begin(live, Seal(SAMPLE, message, sealing).value, sealing.making);
    UpkeepKeeps(SAMPLE, s, CAP, issuance, rotate, p);
    var next := s.(live := later);
    assert Ready(SAMPLE, next, CAP, issuance, RewrapEvent(AcceptAll, args));
    var q := RewrapStays(SAMPLE, AcceptAll, next, CAP, issuance, args, p);
    assert es[1..] == [RewrapEvent(AcceptAll, args)];
    assert AllReady(SAMPLE, next, CAP, issuance, [RewrapEvent(AcceptAll, args)]);
  }

  lemma RotationSucceeds(live: Live) returns (later: Live)
    requires |live.world.entries| == 1 && live.world.entries[0].epoch == 1
    ensures Maintain(SAMPLE, live, Rotate(RotateArgs(ZERO, ZERO, 2, 1, ZERO))) == Ok(later)
    ensures later.state.epoch == 2 && later.state.authorityId == live.state.authorityId
  {
    hide CertMessage, EpochRootMessage, CapabilityLeaf, CapabilityStamp;
    later := Maintain(SAMPLE, live, Rotate(RotateArgs(ZERO, ZERO, 2, 1, ZERO))).value;
  }

  /** The hypotheses of the theorems about runs hold together for a seal and a rewrap that succeeds. */
  lemma RunHypothesesHold(message: Bytes) returns (Q: set<Bytes>, sealing: SealArgs, args: RewrapArgs)
    ensures AeadBinds(SAMPLE) && AeadDecrypts(SAMPLE) && KemsAgree(SAMPLE) && CollisionFree(TagHash, Q)
    ensures Seal(SAMPLE, message, sealing).Ok?
    ensures StampsWithin(TagHash, Q, sealing.cap, sealing.making.state.authorityId)
    ensures OpWithin(TagHash, Q, RewrapOp(AcceptAll, args))
    ensures Rewrap(SAMPLE, AcceptAll, Seal(SAMPLE, message, sealing).value, args).Ok?
  {
    hide Rewrap, Seal, AllReady, Holds, SealsUnder, AeadBinds, AeadDecrypts, KemsAgree, CapabilityBody, Tagged;
    hide TagHash;
    AssumptionsAreConsistent();
    var live, issuance, later, es;
    live, issuance, sealing, later, args, es := SessionHypothesesHold(message);
    var leaf := CapabilityLeaf(TagHash, CAP);
    Q := {CapabilityLeafInput(CAP), StampInput(leaf, [])};
    TagsDiffer(leaf);
  }

  lemma TagsDiffer(leaf: Bytes32)
    ensures TagHash(CapabilityLeafInput(CAP)) != TagHash(StampInput(leaf, []))
  {
    hide CapabilityBody;
    assert CapabilityLeafInput(CAP)[25] == Ascii(CAPABILITY_LEAF_TAG)[25] == 'L' as int;
    assert StampInput(leaf, [])[25] == Ascii(CAPABILITY_STAMP_TAG)[25] == 'S' as int;
    assert TagHash(CapabilityLeafInput(CAP))[0] != TagHash(StampInput(leaf, []))[0];
  }
}
