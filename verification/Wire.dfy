/**
  The object codec of src/encoding/wire.rs: a magic, tagged and length-prefixed
  fields, and two nested lists, decoded under caller-supplied limits.
 */
module Wire {
  import opened Octets
  import opened Policy
  import opened Codec
  import opened Buffers
  import opened Model

  /** "KCS2" */
  const MAGIC: Bytes := [0x4B, 0x43, 0x53, 0x32]

  datatype DecodeLimits = DecodeLimits(
    maxSuiteLen: nat,
    maxObjectIdLen: nat,
    maxPayloadCiphertextLen: nat,
    maxWrappers: nat,
    maxWrappedDekLen: nat,
    maxTransparencySiblings: nat)

  const EMBEDDED := DecodeLimits(64, 256, 256 * 1024, 16, 512, 24)
  const STRICT := DecodeLimits(128, 1024, 8 * 1024 * 1024, 1024, 4096, 64)
  const SERVER := DecodeLimits(256, 4096, 64 * 1024 * 1024, 8192, 16 * 1024, 256)

  // ----- which objects have a faithful encoding

  ghost predicate EncodableWrapper(w: AuthorityWrapper) {
    && Framed(w.kemCtPq) && Framed(w.wrappedDek)
    && w.transparencyProof.leafIndex < U64_SPAN
    && |w.transparencyProof.siblingHashes| < U32_SPAN
  }

  /** Rust's own types give UTF-8 strings and 64-bit indices; lengths must fit their 32-bit prefix. */
  ghost predicate Encodable(o: SealedObject) {
    && Framed(o.suite) && ValidUtf8(o.suite)
    && Framed(o.objectId) && ValidUtf8(o.objectId)
    && Framed(o.payloadCiphertext) && |o.wrappers| < U32_SPAN
    && forall w :: w in o.wrappers ==> EncodableWrapper(w)
  }

  /** `kem_ct_pq` has no limit of its own: it shares the wrapped-DEK limit. */
  ghost predicate WrapperWithin(w: AuthorityWrapper, limits: DecodeLimits) {
    && |w.kemCtPq| <= limits.maxWrappedDekLen
    && |w.wrappedDek| <= limits.maxWrappedDekLen
    && |w.transparencyProof.siblingHashes| <= limits.maxTransparencySiblings
  }

  ghost predicate Within(o: SealedObject, limits: DecodeLimits) {
    && |o.suite| <= limits.maxSuiteLen
    && |o.objectId| <= limits.maxObjectIdLen
    && |o.payloadCiphertext| <= limits.maxPayloadCiphertextLen
    && |o.wrappers| <= limits.maxWrappers
    && forall w :: w in o.wrappers ==> WrapperWithin(w, limits)
  }

  // ----- the format, as functions

  function PutSiblings(siblings: seq<Bytes32>, tail: Bytes): Bytes {
    if siblings == [] then tail else PutBytes(siblings[0], PutSiblings(siblings[1..], tail))
  }

  function PutProof(proof: TransparencyProof, tail: Bytes): Bytes {
    PutBytes(proof.leafHash,
    PutU64(Low64(proof.leafIndex),
    PutU32(Low32(|proof.siblingHashes|),
    PutSiblings(proof.siblingHashes, tail))))
  }

  function PutWrapper(w: AuthorityWrapper, tail: Bytes): Bytes {
    PutU64(w.epoch,
    PutBytes(w.kemCtClassical,
    PutBytes(w.kemCtPq,
    PutBytes(w.wrapNonce,
    PutBytes(w.wrappedDek,
    PutBytes(w.contextHash,
    PutBytes(w.capabilityStamp,
    PutProof(w.transparencyProof, tail))))))))
  }

  function PutWrappers(ws: seq<AuthorityWrapper>, tail: Bytes): Bytes {
    if ws == [] then tail else PutWrapper(ws[0], PutWrappers(ws[1..], tail))
  }

  function PutPayload(o: SealedObject, tail: Bytes): Bytes {
    PutBytes(o.authorityRoot,
    PutBytes(o.revocationRoot,
    PutBytes(o.payloadNonce,
    PutBytes(o.payloadCiphertext,
    PutU32(Low32(|o.wrappers|),
    PutWrappers(o.wrappers, tail))))))
  }

  function PutObject(o: SealedObject, tail: Bytes): Bytes {
    PutU16(o.version,
    PutBytes(o.suite,
    PutBytes(o.objectId,
    PutRights(o.requiredRights,
    PutBytes(o.policyHash,
    PutU64(o.sealEpoch,
    PutTemporalPolicy(o.temporalPolicy,
    PutPayload(o, tail))))))))
  }

  function Encode(o: SealedObject): Bytes {
    MAGIC + PutObject(o, [])
  }

  function TakeSiblings(n: nat, b: Bytes): (r: Result<(seq<Bytes32>, Bytes)>)
    ensures r.Err? ==> r.error == ParseFailure
  {
    if n == 0 then Ok(([], b))
    else
      var (sibling, b1) :- TakeFixed(b, 32);
      var (rest, b2) :- TakeSiblings(n - 1, b1);
      Ok(([sibling] + rest, b2))
  }

  function TakeProof(b: Bytes, limits: DecodeLimits): (r: Result<(TransparencyProof, Bytes)>)
    ensures r.Err? ==> r.error == ParseFailure
  {
    var (leafHash, b1) :- TakeFixed(b, 32);
    var (leafIndex, b2) :- TakeU64(b1);
    var (count, b3) :- TakeU32(b2);
    if count > limits.maxTransparencySiblings then Err(ParseFailure)
    else
      var (siblings, b4) :- TakeSiblings(count, b3);
      Ok((TransparencyProof(leafHash, siblings, leafIndex), b4))
  }

  function TakeWrapper(b: Bytes, limits: DecodeLimits): (r: Result<(AuthorityWrapper, Bytes)>)
    ensures r.Err? ==> r.error == ParseFailure
  {
    var (epoch, b1) :- TakeU64(b);
    var (kemCtClassical, b2) :- TakeFixed(b1, 32);
    var (kemCtPq, b3) :- TakeBytesLimited(b2, limits.maxWrappedDekLen);
    var (wrapNonce, b4) :- TakeFixed(b3, 12);
    var (wrappedDek, b5) :- TakeBytesLimited(b4, limits.maxWrappedDekLen);
    var (contextHash, b6) :- TakeFixed(b5, 32);
    var (stamp, b7) :- TakeFixed(b6, 32);
    var (proof, b8) :- TakeProof(b7, limits);
    Ok((AuthorityWrapper(epoch, kemCtClassical, kemCtPq, wrapNonce, wrappedDek, contextHash, stamp, proof), b8))
  }

  function TakeWrappers(n: nat, b: Bytes, limits: DecodeLimits): (r: Result<(seq<AuthorityWrapper>, Bytes)>)
    ensures r.Err? ==> r.error == ParseFailure
  {
    if n == 0 then Ok(([], b))
    else
      var (w, b1) :- TakeWrapper(b, limits);
      var (rest, b2) :- TakeWrappers(n - 1, b1, limits);
      Ok(([w] + rest, b2))
  }

  datatype Header = Header(
    version: u16,
    suite: Bytes,
    objectId: Bytes,
    rights: Rights,
    policyHash: Bytes32,
    sealEpoch: u64,
    temporalPolicy: TemporalPolicy)

  function TakeHeader(b: Bytes, limits: DecodeLimits): (r: Result<(Header, Bytes)>)
    ensures r.Err? ==> r.error == ParseFailure
  {
    var (version, b1) :- TakeU16(b);
    var (suite, b2) :- TakeText(b1, limits.maxSuiteLen);
    var (objectId, b3) :- TakeText(b2, limits.maxObjectIdLen);
    var (rights, b4) :- TakeRights(b3);
    var (policyHash, b5) :- TakeFixed(b4, 32);
    var (sealEpoch, b6) :- TakeU64(b5);
    var (temporalPolicy, b7) :- TakeTemporalPolicy(b6);
    Ok((Header(version, suite, objectId, rights, policyHash, sealEpoch, temporalPolicy), b7))
  }

  /** The rest of an object after its header. */
  function TakePayload(h: Header, b: Bytes, limits: DecodeLimits): (r: Result<(SealedObject, Bytes)>)
    ensures r.Err? ==> r.error == ParseFailure
  {
    var (authorityRoot, b1) :- TakeFixed(b, 32);
    var (revocationRoot, b2) :- TakeFixed(b1, 32);
    var (payloadNonce, b3) :- TakeFixed(b2, 12);
    var (payload, b4) :- TakeBytesLimited(b3, limits.maxPayloadCiphertextLen);
    var (count, b5) :- TakeU32(b4);
    if count > limits.maxWrappers then Err(ParseFailure)
    else
      var (wrappers, b6) :- TakeWrappers(count, b5, limits);
      Ok((SealedObject(h.version, h.suite, h.objectId, h.rights, h.policyHash, h.sealEpoch, h.temporalPolicy,
                       authorityRoot, revocationRoot, payloadNonce, payload, wrappers), b6))
  }

  function TakeObject(b: Bytes, limits: DecodeLimits): (r: Result<(SealedObject, Bytes)>)
    ensures r.Err? ==> r.error == ParseFailure
  {
    var (header, rest) :- TakeHeader(b, limits);
    TakePayload(header, rest, limits)
  }

  function Decode(b: Bytes, limits: DecodeLimits): (r: Result<SealedObject>)
    ensures r.Err? ==> r.error == ParseFailure
  {
    if |b| < 4 || b[..4] != MAGIC then Err(ParseFailure)
    else
      var (o, rest) :- TakeObject(b[4..], limits);
      if rest != [] then Err(ParseFailure) else Ok(o)
  }

  // ----- reading what was written

  lemma {:induction false} SiblingsReadBack(siblings: seq<Bytes32>, tail: Bytes)
    ensures TakeSiblings(|siblings|, PutSiblings(siblings, tail)) == Ok((siblings, tail))
  {
    hide PutU16, PutU32, PutU64, PutBytes, PutRights, PutTemporalPolicy, Low32, Low64;
    hide TakeU16, TakeU32, TakeU64, TakeBytesLimited, TakeFixed, TakeText, TakeRights, TakeTemporalPolicy, ValidUtf8;
    if siblings != [] {
      SiblingsReadBack(siblings[1..], tail);
      assert siblings == [siblings[0]] + siblings[1..];
    }
  }

  lemma WrapperReadsBack(w: AuthorityWrapper, tail: Bytes, limits: DecodeLimits)
    requires EncodableWrapper(w) && WrapperWithin(w, limits)
    ensures TakeWrapper(PutWrapper(w, tail), limits) == Ok((w, tail))
  {
    hide PutU16, PutU32, PutU64, PutBytes, PutRights, PutTemporalPolicy, Low32, Low64;
    hide TakeU16, TakeU32, TakeU64, TakeBytesLimited, TakeFixed, TakeText, TakeRights, TakeTemporalPolicy, ValidUtf8;
    SiblingsReadBack(w.transparencyProof.siblingHashes, tail);
  }

  lemma {:induction false} WrappersReadBack(ws: seq<AuthorityWrapper>, tail: Bytes, limits: DecodeLimits)
    requires forall w :: w in ws ==> EncodableWrapper(w) && WrapperWithin(w, limits)
    ensures TakeWrappers(|ws|, PutWrappers(ws, tail), limits) == Ok((ws, tail))
  {
    hide PutWrapper, TakeWrapper;
    if ws != [] {
      WrapperReadsBack(ws[0], PutWrappers(ws[1..], tail), limits);
      WrappersReadBack(ws[1..], tail, limits);
      assert ws == [ws[0]] + ws[1..];
    }
  }

  lemma ObjectReadsBack(o: SealedObject, tail: Bytes, limits: DecodeLimits)
    requires Encodable(o) && Within(o, limits)
    ensures TakeObject(PutObject(o, tail), limits) == Ok((o, tail))
  {
    hide PutU16, PutU32, PutU64, PutBytes, PutRights, PutTemporalPolicy, Low32, Low64;
    hide TakeU16, TakeU32, TakeU64, TakeBytesLimited, TakeFixed, TakeText, TakeRights, TakeTemporalPolicy, ValidUtf8;
    hide PutWrapper, TakeWrapper, PutWrappers, TakeWrappers;
    WrappersReadBack(o.wrappers, tail, limits);
  }

  // ----- writing what was read

  lemma {:induction false} SiblingsRewrite(n: nat, b: Bytes)
    requires TakeSiblings(n, b).Ok?
    ensures var (siblings, rest) := TakeSiblings(n, b).value;
      |siblings| == n && b == PutSiblings(siblings, rest)
  {
    hide PutU16, PutU32, PutU64, PutBytes, PutRights, PutTemporalPolicy, Low32, Low64;
    hide TakeU16, TakeU32, TakeU64, TakeBytesLimited, TakeFixed, TakeText, TakeRights, TakeTemporalPolicy, ValidUtf8;
    ReadsAreCanonical();
    if n != 0 {
      SiblingsRewrite(n - 1, TakeFixed(b, 32).value.1);
    }
  }

  lemma ProofRewrites(b: Bytes, limits: DecodeLimits)
    requires TakeProof(b, limits).Ok?
    ensures var (proof, rest) := TakeProof(b, limits).value;
      && b == PutProof(proof, rest)
      && proof.leafIndex < U64_SPAN && |proof.siblingHashes| < U32_SPAN
      && |proof.siblingHashes| <= limits.maxTransparencySiblings
  {
    hide PutU16, PutU32, PutU64, PutBytes, PutRights, PutTemporalPolicy, Low32, Low64;
    hide TakeU16, TakeU32, TakeU64, TakeBytesLimited, TakeFixed, TakeText, TakeRights, TakeTemporalPolicy, ValidUtf8;
    ReadsAreCanonical();
    var b1 := TakeFixed(b, 32).value.1;
    var b2 := TakeU64(b1).value.1;
    var (count, b3) := TakeU32(b2).value;
    SiblingsRewrite(count, b3);
  }

  lemma WrapperRewrites(b: Bytes, limits: DecodeLimits)
    requires TakeWrapper(b, limits).Ok?
    ensures var (w, rest) := TakeWrapper(b, limits).value;
      b == PutWrapper(w, rest) && EncodableWrapper(w) && WrapperWithin(w, limits)
  {
    hide PutU16, PutU32, PutU64, PutBytes, PutRights, PutTemporalPolicy, Low32, Low64;
    hide TakeU16, TakeU32, TakeU64, TakeBytesLimited, TakeFixed, TakeText, TakeRights, TakeTemporalPolicy, ValidUtf8;
    hide TakeProof, PutProof;
    ReadsAreCanonical();
    forall b' | TakeProof(b', limits).Ok?
      ensures var (proof, rest) := TakeProof(b', limits).value;
        && b' == PutProof(proof, rest)
        && proof.leafIndex < U64_SPAN && |proof.siblingHashes| < U32_SPAN
        && |proof.siblingHashes| <= limits.maxTransparencySiblings
    {
      ProofRewrites(b', limits);
    }
  }

  lemma {:induction false} WrappersRewrite(n: nat, b: Bytes, limits: DecodeLimits)
    requires TakeWrappers(n, b, limits).Ok?
    ensures var (ws, rest) := TakeWrappers(n, b, limits).value;
      && |ws| == n && b == PutWrappers(ws, rest)
      && forall w :: w in ws ==> EncodableWrapper(w) && WrapperWithin(w, limits)
  {
    hide PutWrapper, TakeWrapper;
    if n != 0 {
      WrapperRewrites(b, limits);
      WrappersRewrite(n - 1, TakeWrapper(b, limits).value.1, limits);
    }
  }

  lemma HeaderRewrites(b: Bytes, limits: DecodeLimits)
    requires TakeHeader(b, limits).Ok?
    ensures var (h, rest) := TakeHeader(b, limits).value;
      && b == PutU16(h.version, PutBytes(h.suite, PutBytes(h.objectId, PutRights(h.rights, PutBytes(h.policyHash,
        PutU64(h.sealEpoch, PutTemporalPolicy(h.temporalPolicy, rest)))))))
      && Framed(h.suite) && ValidUtf8(h.suite) && |h.suite| <= limits.maxSuiteLen
      && Framed(h.objectId) && ValidUtf8(h.objectId) && |h.objectId| <= limits.maxObjectIdLen
  {
    hide PutU16, PutU64, PutBytes, PutRights, PutTemporalPolicy;
    hide TakeU16, TakeU64, TakeBytesLimited, TakeFixed, TakeText, TakeRights, TakeTemporalPolicy, ValidUtf8;
    ReadsAreCanonical();
  }

  lemma PayloadRewrites(h: Header, b: Bytes, limits: DecodeLimits)
    requires TakePayload(h, b, limits).Ok?
    ensures var (o, rest) := TakePayload(h, b, limits).value;
      && b == PutPayload(o, rest) && HeaderOf(o) == h
      && Framed(o.payloadCiphertext) && |o.payloadCiphertext| <= limits.maxPayloadCiphertextLen
      && |o.wrappers| < U32_SPAN && |o.wrappers| <= limits.maxWrappers
      && forall w :: w in o.wrappers ==> EncodableWrapper(w) && WrapperWithin(w, limits)
  {
    hide PutU32, PutBytes, Low32, TakeU32, TakeBytesLimited, TakeFixed;
    hide PutWrapper, TakeWrapper, PutWrappers, TakeWrappers, EncodableWrapper, WrapperWithin;
    ReadsAreCanonical();
    forall n, b' | TakeWrappers(n, b', limits).Ok?
      ensures var (ws, rest) := TakeWrappers(n, b', limits).value;
        && |ws| == n && b' == PutWrappers(ws, rest)
        && forall w :: w in ws ==> EncodableWrapper(w) && WrapperWithin(w, limits)
    {
      WrappersRewrite(n, b', limits);
    }
  }

  function HeaderOf(o: SealedObject): Header {
    Header(o.version, o.suite, o.objectId, o.requiredRights, o.policyHash, o.sealEpoch, o.temporalPolicy)
  }

  lemma ObjectRewrites(b: Bytes, limits: DecodeLimits)
    requires TakeObject(b, limits).Ok?
    ensures var (o, rest) := TakeObject(b, limits).value;
      b == PutObject(o, rest) && Encodable(o) && Within(o, limits)
  {
    hide PutU16, PutU64, PutBytes, PutRights, PutTemporalPolicy, PutPayload, TakeHeader, TakePayload, ValidUtf8;
    hide EncodableWrapper, WrapperWithin;
    HeaderRewrites(b, limits);
    var (h, rest) := TakeHeader(b, limits).value;
    PayloadRewrites(h, rest, limits);
  }

  // ----- the codec is exact

  /**
    The decoder accepts `b` under `limits` and returns `o` if and only if `o` is an
    encodable object within the limits and `b` is its encoding.
   */
  lemma DecodeIsExact(b: Bytes, limits: DecodeLimits, o: SealedObject)
    ensures Decode(b, limits) == Ok(o) <==> Encodable(o) && Within(o, limits) && b == Encode(o)
  {
    hide TakeObject, PutObject;
    if |b| >= 4 && b[..4] == MAGIC && TakeObject(b[4..], limits).Ok? {
      ObjectRewrites(b[4..], limits);
      assert b == MAGIC + b[4..];
    }
    if Encodable(o) && Within(o, limits) && b == Encode(o) {
      ObjectReadsBack(o, [], limits);
      assert b[..4] == MAGIC && b[4..] == PutObject(o, []);
    }
  }

  lemma {:induction false} SiblingsAppend(siblings: seq<Bytes32>, t: Bytes, e: Bytes)
    ensures PutSiblings(siblings, t) + e == PutSiblings(siblings, t + e)
  {
    hide PutU16, PutU32, PutU64, PutBytes, PutRights, PutTemporalPolicy, Low32, Low64;
    hide TakeU16, TakeU32, TakeU64, TakeBytesLimited, TakeFixed, TakeText, TakeRights, TakeTemporalPolicy, ValidUtf8;
    WritesAppend(e);
    if siblings != [] {
      SiblingsAppend(siblings[1..], t, e);
    }
  }

  lemma WrapperAppends(w: AuthorityWrapper, t: Bytes, e: Bytes)
    ensures PutWrapper(w, t) + e == PutWrapper(w, t + e)
  {
    hide PutU16, PutU32, PutU64, PutBytes, PutRights, PutTemporalPolicy, Low32, Low64;
    hide TakeU16, TakeU32, TakeU64, TakeBytesLimited, TakeFixed, TakeText, TakeRights, TakeTemporalPolicy, ValidUtf8;
    WritesAppend(e);
    SiblingsAppend(w.transparencyProof.siblingHashes, t, e);
  }

  lemma {:induction false} WrappersAppend(ws: seq<AuthorityWrapper>, t: Bytes, e: Bytes)
    ensures PutWrappers(ws, t) + e == PutWrappers(ws, t + e)
  {
    hide PutWrapper;
    if ws != [] {
      WrapperAppends(ws[0], PutWrappers(ws[1..], t), e);
      WrappersAppend(ws[1..], t, e);
    }
  }

  lemma ObjectAppends(o: SealedObject, e: Bytes)
    ensures PutObject(o, []) + e == PutObject(o, e)
  {
    hide PutU16, PutU32, PutU64, PutBytes, PutRights, PutTemporalPolicy, Low32, Low64;
    hide TakeU16, TakeU32, TakeU64, TakeBytesLimited, TakeFixed, TakeText, TakeRights, TakeTemporalPolicy, ValidUtf8;
    hide PutWrappers;
    WritesAppend(e);
    WrappersAppend(o.wrappers, [], e);
    assert [] + e == e;
  }

  /** Bytes after a complete object are always rejected. */
  lemma TrailingBytesReject(o: SealedObject, extra: Bytes, limits: DecodeLimits)
    requires Encodable(o) && Within(o, limits) && extra != []
    ensures Decode(Encode(o) + extra, limits).Err?
  {
    hide TakeObject, PutObject;
    var b := Encode(o) + extra;
    ObjectAppends(o, extra);
    ObjectReadsBack(o, extra, limits);
    assert b[4..] == PutObject(o, []) + extra;
  }

  ghost predicate NoTighter(loose: DecodeLimits, tight: DecodeLimits) {
    && tight.maxSuiteLen <= loose.maxSuiteLen
    && tight.maxObjectIdLen <= loose.maxObjectIdLen
    && tight.maxPayloadCiphertextLen <= loose.maxPayloadCiphertextLen
    && tight.maxWrappers <= loose.maxWrappers
    && tight.maxWrappedDekLen <= loose.maxWrappedDekLen
    && tight.maxTransparencySiblings <= loose.maxTransparencySiblings
  }

  /** Loosening limits never changes an accepted result, and the profiles are ordered. */
  lemma AcceptanceIsMonotone(b: Bytes, tight: DecodeLimits, loose: DecodeLimits)
    requires NoTighter(loose, tight) && Decode(b, tight).Ok?
    ensures Decode(b, loose) == Decode(b, tight)
    ensures NoTighter(STRICT, EMBEDDED) && NoTighter(SERVER, STRICT)
  {
    hide TakeObject, PutObject;
    var o := Decode(b, tight).value;
    DecodeIsExact(b, tight, o);
    DecodeIsExact(b, loose, o);
  }

  // ----- the encoder and decoder loops

  /** Appends `siblings`; `t` stands for whatever is written after them. */
  method WriteSiblings(out: Writer, siblings: seq<Bytes32>, ghost t: Bytes)
    modifies out
    ensures out.out + t == old(out.out) + PutSiblings(siblings, t)
  {
    hide PutU16, PutU32, PutU64, PutBytes, PutRights, PutTemporalPolicy, Low32, Low64;
    for k := 0 to |siblings|
      invariant out.out + PutSiblings(siblings[k..], t) == old(out.out) + PutSiblings(siblings, t)
    {
      ghost var rest := PutSiblings(siblings[k + 1..], t);
      assert PutSiblings(siblings[k..], t) == PutBytes(siblings[k], rest);
      out.WriteBytes(siblings[k]);
    }
  }

  method WriteProof(out: Writer, proof: TransparencyProof, ghost t: Bytes)
    requires |proof.siblingHashes| < U32_SPAN
    modifies out
    ensures out.out + t == old(out.out) + PutProof(proof, t)
  {
    hide PutU16, PutU32, PutU64, PutBytes, PutRights, PutTemporalPolicy, Low32, Low64;
    hide PutSiblings;
    out.WriteBytes(proof.leafHash);
    out.WriteU64(Low64(proof.leafIndex));
    out.WriteU32(|proof.siblingHashes|);
    WriteSiblings(out, proof.siblingHashes, t);
  }

  method WriteWrapper(out: Writer, w: AuthorityWrapper, ghost t: Bytes)
    requires |w.transparencyProof.siblingHashes| < U32_SPAN
    modifies out
    ensures out.out + t == old(out.out) + PutWrapper(w, t)
  {
    hide PutU16, PutU32, PutU64, PutBytes, PutRights, PutTemporalPolicy, Low32, Low64;
    hide PutProof;
    out.WriteU64(w.epoch);
    out.WriteBytes(w.kemCtClassical);
    out.WriteBytes(w.kemCtPq);
    out.WriteBytes(w.wrapNonce);
    out.WriteBytes(w.wrappedDek);
    out.WriteBytes(w.contextHash);
    out.WriteBytes(w.capabilityStamp);
    WriteProof(out, w.transparencyProof, t);
  }

  method WriteWrappers(out: Writer, ws: seq<AuthorityWrapper>)
    requires forall w :: w in ws ==> |w.transparencyProof.siblingHashes| < U32_SPAN
    modifies out
    ensures out.out == old(out.out) + PutWrappers(ws, [])
  {
    hide PutWrapper;
    for k := 0 to |ws|
      invariant out.out + PutWrappers(ws[k..], []) == old(out.out) + PutWrappers(ws, [])
    {
      ghost var rest := PutWrappers(ws[k + 1..], []);
      assert PutWrappers(ws[k..], []) == PutWrapper(ws[k], rest);
      WriteWrapper(out, ws[k], rest);
    }
  }

  /** `encode_kyriotes_csk2_object`; the two `requires` are its `expect`s on list lengths. */
  method EncodeObject(o: SealedObject) returns (b: Bytes)
    requires |o.wrappers| < U32_SPAN
    requires forall w :: w in o.wrappers ==> |w.transparencyProof.siblingHashes| < U32_SPAN
    ensures b == Encode(o)
  {
    hide PutU16, PutU32, PutU64, PutBytes, PutRights, PutTemporalPolicy, Low32, Low64;
    hide TakeU16, TakeU32, TakeU64, TakeBytesLimited, TakeFixed, TakeText, TakeRights, TakeTemporalPolicy, ValidUtf8;
    hide PutWrappers;
    var out := new Writer();
    out.Extend(MAGIC);
    out.WriteU16(o.version);
    out.WriteBytes(o.suite);
    out.WriteBytes(o.objectId);
    out.WriteRights(o.requiredRights);
    out.WriteBytes(o.policyHash);
    out.WriteU64(o.sealEpoch);
    out.WritePolicy(o.temporalPolicy);
    assert out.out + PutPayload(o, []) == Encode(o);
    out.WriteBytes(o.authorityRoot);
    out.WriteBytes(o.revocationRoot);
    out.WriteBytes(o.payloadNonce);
    out.WriteBytes(o.payloadCiphertext);
    out.WriteU32(|o.wrappers|);
    WriteWrappers(out, o.wrappers);
    b := out.out;
  }

  /** What a list read returns after `done` items when `rest` is what the remaining items give. */
  ghost function After<T>(done: seq<T>, rest: Result<(seq<T>, Bytes)>): Result<(seq<T>, Bytes)> {
    match rest
    case Ok((items, unread)) => Ok((done + items, unread))
    case Err(e) => Err(e)
  }

  lemma AfterOne<T>(done: seq<T>, x: T, rest: Result<(seq<T>, Bytes)>)
    ensures After(done, After([x], rest)) == After(done + [x], rest)
  {
    if rest.Ok? {
      assert done + ([x] + rest.value.0) == (done + [x]) + rest.value.0;
    }
  }

  lemma AfterEnds<T>(done: seq<T>, rest: Result<(seq<T>, Bytes)>)
    ensures After([], rest) == rest
    ensures rest.Ok? && rest.value.0 == [] ==> After(done, rest) == Ok((done, rest.value.1))
  {
    if rest.Ok? {
      assert [] + rest.value.0 == rest.value.0;
      assert done + [] == done;
    }
  }

  method ReadSiblings(input: Reader, count: nat) returns (r: Result<seq<Bytes32>>)
    requires input.Valid()
    modifies input
    ensures input.Valid() && Reads(TakeSiblings(count, old(input.Rest())), r, input.Rest())
  {
    hide TakeU16, TakeU32, TakeU64, TakeBytesLimited, TakeFixed, TakeText, TakeRights, TakeTemporalPolicy, ValidUtf8;
    ghost var start := input.Rest();
    var siblings: seq<Bytes32> := [];
    AfterEnds(siblings, TakeSiblings(count, start));
    for k := 0 to count
      invariant input.Valid()
      invariant TakeSiblings(count, start) == After(siblings, TakeSiblings(count - k, input.Rest()))
    {
      var sibling :- input.ReadFixed(32);
      AfterOne(siblings, sibling, TakeSiblings(count - k - 1, input.Rest()));
      siblings := siblings + [sibling];
    }
    AfterEnds(siblings, TakeSiblings(0, input.Rest()));
    r := Ok(siblings);
  }

  method ReadProof(input: Reader, limits: DecodeLimits) returns (r: Result<TransparencyProof>)
    requires input.Valid()
    modifies input
    ensures input.Valid() && Reads(TakeProof(old(input.Rest()), limits), r, input.Rest())
  {
    hide TakeU16, TakeU32, TakeU64, TakeBytesLimited, TakeFixed, TakeText, TakeRights, TakeTemporalPolicy, ValidUtf8;
    hide TakeSiblings;
    var leafHash :- input.ReadFixed(32);
    var leafIndex :- input.ReadU64();
    var count :- input.ReadU32();
    if count > limits.maxTransparencySiblings {
      return Err(ParseFailure);
    }
    var siblings :- ReadSiblings(input, count);
    r := Ok(TransparencyProof(leafHash, siblings, leafIndex));
  }

  method ReadWrapper(input: Reader, limits: DecodeLimits) returns (r: Result<AuthorityWrapper>)
    requires input.Valid()
    modifies input
    ensures input.Valid() && Reads(TakeWrapper(old(input.Rest()), limits), r, input.Rest())
  {
    hide TakeU16, TakeU32, TakeU64, TakeBytesLimited, TakeFixed, TakeText, TakeRights, TakeTemporalPolicy, ValidUtf8;
    hide TakeProof;
    var epoch :- input.ReadU64();
    var kemCtClassical :- input.ReadFixed(32);
    var kemCtPq :- input.ReadBytes(limits.maxWrappedDekLen);
    var wrapNonce :- input.ReadFixed(12);
    var wrappedDek :- input.ReadBytes(limits.maxWrappedDekLen);
    var contextHash :- input.ReadFixed(32);
    var stamp :- input.ReadFixed(32);
    var proof :- ReadProof(input, limits);
    r := Ok(AuthorityWrapper(epoch, kemCtClassical, kemCtPq, wrapNonce, wrappedDek, contextHash, stamp, proof));
  }

  method ReadWrappers(input: Reader, count: nat, limits: DecodeLimits) returns (r: Result<seq<AuthorityWrapper>>)
    requires input.Valid()
    modifies input
    ensures input.Valid() && Reads(TakeWrappers(count, old(input.Rest()), limits), r, input.Rest())
  {
    hide TakeWrapper;
    ghost var start := input.Rest();
    var wrappers: seq<AuthorityWrapper> := [];
    AfterEnds(wrappers, TakeWrappers(count, start, limits));
    for k := 0 to count
      invariant input.Valid()
      invariant TakeWrappers(count, start, limits) == After(wrappers, TakeWrappers(count - k, input.Rest(), limits))
    {
      var w :- ReadWrapper(input, limits);
      AfterOne(wrappers, w, TakeWrappers(count - k - 1, input.Rest(), limits));
      wrappers := wrappers + [w];
    }
    AfterEnds(wrappers, TakeWrappers(0, input.Rest(), limits));
    r := Ok(wrappers);
  }

  method ReadHeader(input: Reader, limits: DecodeLimits) returns (r: Result<Header>)
    requires input.Valid()
    modifies input
    ensures input.Valid()
    ensures Reads(TakeHeader(old(input.Rest()), limits), r, input.Rest())
  {
    hide TakeU16, TakeU64, TakeFixed, TakeText, TakeRights, TakeTemporalPolicy;
    var version :- input.ReadU16();
    var suite :- input.ReadText(limits.maxSuiteLen);
    var objectId :- input.ReadText(limits.maxObjectIdLen);
    var rights :- input.ReadRights();
    var policyHash :- input.ReadFixed(32);
    var sealEpoch :- input.ReadU64();
    var temporalPolicy :- input.ReadPolicy();
    r := Ok(Header(version, suite, objectId, rights, policyHash, sealEpoch, temporalPolicy));
  }

  method ReadPayload(input: Reader, header: Header, limits: DecodeLimits) returns (r: Result<SealedObject>)
    requires input.Valid()
    modifies input
    ensures input.Valid()
    ensures Reads(TakePayload(header, old(input.Rest()), limits), r, input.Rest())
  {
    hide TakeU32, TakeBytesLimited, TakeFixed, TakeWrappers;
    var authorityRoot :- input.ReadFixed(32);
    var revocationRoot :- input.ReadFixed(32);
    var payloadNonce :- input.ReadFixed(12);
    var payload :- input.ReadBytes(limits.maxPayloadCiphertextLen);
    var count :- input.ReadU32();
    if count > limits.maxWrappers {
      return Err(ParseFailure);
    }
    var wrappers :- ReadWrappers(input, count, limits);
    r := Ok(SealedObject(header.version, header.suite, header.objectId, header.rights, header.policyHash,
                         header.sealEpoch, header.temporalPolicy,
                         authorityRoot, revocationRoot, payloadNonce, payload, wrappers));
  }

  /** `decode_kyriotes_csk2_object_with_limits` */
  method DecodeObject(b: Bytes, limits: DecodeLimits) returns (r: Result<SealedObject>)
    ensures r == Decode(b, limits)
  {
    hide TakeHeader, TakePayload;
    if |b| < 4 {
      return Err(ParseFailure);
    }
    if b[..4] != MAGIC {
      return Err(ParseFailure);
    }
    var input := new Reader(b);
    input.cursor := 4;
    var header :- ReadHeader(input, limits);
    var o :- ReadPayload(input, header, limits);
    if input.cursor != |b| {
      return Err(ParseFailure);
    }
    r := Ok(o);
  }
}
