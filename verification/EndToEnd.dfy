/**
  Theorems that span the whole crate: a capability that is issued, used, maintained and
  finally revoked.
 */
module EndToEnd {
  import opened Octets
  import opened Merkle
  import opened Model
  import opened Crypto
  import opened CapabilityTree
  import opened Authority
  import opened Lifecycle
  import opened Sealing
  import opened Rewrapping

  /** After a revocation and any run, nothing opens or verifies under a state that publishes the tree's list. */
  lemma RevokedCapabilityNeverOpens(
      c: Suite, Q: set<Bytes>, w: World, cap: Capability, base: AuthorityState, revokeEpoch: u64, steps: seq<Step>,
      v: StateVerifier, sk: RecipientSecretKey, o: SealedObject, proof: CapabilityProof, state: AuthorityState)
    requires StrictlySorted(w.tree.revoked) && RevokeCapability(c.hash, w.tree, cap, base, revokeEpoch).Ok?
    requires var revoked := RunFrom(c, RevokeAndCommit(c.hash, w, cap, base, revokeEpoch).world, steps).tree.revoked;
      && state.authorityId == base.authorityId && Publishes(c.hash, state, revoked)
      && Ideal(c.hash, Q) && TreeWithin(c.hash, revoked, Q) && WitnessWithin(c.hash, proof.nonRevocation, Q)
      && HasDepth(proof.nonRevocation, |revoked|)
    ensures Open(c, v, sk, o, cap, proof, state).Err?
    ensures forall t :: VerifyObject(c, v, o, cap, proof, state, t).Err?
  {
    hide RevokeCapability, RevokeAndCommit, RunFrom, StrictlySorted, ValidateCapability, UnwrapDek, PayloadAad;
    hide TreeWithin, WitnessWithin, HasDepth, Ideal, SelectWrapper;
    RevocationIsPermanent(c, Q, w, cap, base, revokeEpoch, steps, proof, state, RequestFor(o, state.epoch));
  }

  /** Along every run on the last published state, a revoked capability opens and verifies nothing at its end. */
  lemma RevokedCapabilityStaysClosed(
      c: Suite, Q: set<Bytes>, live: Live, cap: Capability, revokeEpoch: u64, xs: seq<Activity>,
      v: StateVerifier, sk: RecipientSecretKey, o: SealedObject, proof: CapabilityProof)
    requires Consistent(c.hash, live) && ActAll(c, live, [Keep(RevokeOther(cap, revokeEpoch))] + xs).Ok?
    requires var revoked := ActAll(c, live, [Keep(RevokeOther(cap, revokeEpoch))] + xs).value.world.tree.revoked;
      && Ideal(c.hash, Q) && TreeWithin(c.hash, revoked, Q) && WitnessWithin(c.hash, proof.nonRevocation, Q)
      && HasDepth(proof.nonRevocation, |revoked|)
    ensures var final := ActAll(c, live, [Keep(RevokeOther(cap, revokeEpoch))] + xs).value;
      && Open(c, v, sk, o, cap, proof, final.state).Err?
      && forall t :: VerifyObject(c, v, o, cap, proof, final.state, t).Err?
  {
    hide Consistent, ActAll, ValidateCapability, UnwrapDek, PayloadAad, SelectWrapper;
    hide TreeWithin, WitnessWithin, HasDepth, Ideal;
    var final := ActAll(c, live, [Keep(RevokeOther(cap, revokeEpoch))] + xs).value;
    RevokedStaysRejected(c, Q, live, cap, revokeEpoch, xs, proof, RequestFor(o, final.state.epoch));
  }

  // ----- sessions: one authority and one sealed message, evolving side by side

  /** The moment at which a wrapper was made, and how. */
  datatype Moment = Moment(live: Live, making: Making)

  /** The authority as it is now, the object, and the moment of each epoch it is wrapped for. */
  datatype Session = Session(live: Live, sealed: SealedObject, moments: map<u64, Moment>)

  datatype Event =
    | AuthorityEvent(upkeep: Upkeep)
    | RewrapEvent(v: StateVerifier, rewrap: RewrapArgs)
    | ResealEvent(v: StateVerifier, reseal: ResealArgs)

  function Begin(live: Live, o: SealedObject, making: Making): Session {
    Session(live, o, map[live.state.epoch := Moment(live, making)])
  }

  function Advance(c: Suite, s: Session, e: Event): Result<Session> {
    match e
    case AuthorityEvent(u) =>
      var live :- Maintain(c, s.live, u);
      Ok(s.(live := live))
    case RewrapEvent(v, args) =>
      var o :- Rewrap(c, v, s.sealed, args);
      Ok(s.(sealed := o, moments := s.moments[s.live.state.epoch := Moment(s.live, args.making)]))
    case ResealEvent(v, args) =>
      var o :- OpenAndReseal(c, v, s.sealed, args);
      Ok(Begin(s.live, o, args.seal.making))
  }

  function AdvanceAll(c: Suite, s: Session, es: seq<Event>): Result<Session>
    decreases |es|
  {
    if |es| == 0 then Ok(s)
    else
      var next :- Advance(c, s, es[0]);
      AdvanceAll(c, next, es[1..])
  }

  /** What a caller brings to seal under a live state with a held capability. */
  ghost predicate SealsUnder(c: Suite, live: Live, cap: Capability, issuance: IssuanceProof, args: SealArgs) {
    && args.cap == cap && args.making.state == live.state
    && FreshProof(c, live, cap, issuance) == Some(args.proof)
    && Grants(cap, live.state, args.req)
  }

  /** The key and the proof that belong to the moment at which `state` was wrapped, and a verifier that accepts it. */
  ghost predicate Unlocks(
      c: Suite, v: StateVerifier, s: Session, cap: Capability, issuance: IssuanceProof,
      sk: RecipientSecretKey, proof: CapabilityProof, state: AuthorityState)
  {
    && state.epoch in s.moments && s.moments[state.epoch].live.state == state
    && KeysMatch(c, s.moments[state.epoch].making.pk, sk)
    && v(state, s.moments[state.epoch].making.transparencyProof).Ok?
    && FreshProof(c, s.moments[state.epoch].live, cap, issuance) == Some(proof)
  }

  /** What the authority or a caller brings to one event. Success of sealing operations is not part of it. */
  ghost predicate Ready(c: Suite, s: Session, cap: Capability, issuance: IssuanceProof, e: Event) {
    match e
    case AuthorityEvent(u) =>
      && Maintain(c, s.live, u).Ok?
      && Spares(c.hash, s.live.state.authorityId, u, CapabilityStamp(c.hash, cap, s.live.state.authorityId))
    case RewrapEvent(v, args) =>
      && args.cap == cap && Unlocks(c, v, s, cap, issuance, args.sk, args.proof, args.from)
      && args.making.state == s.live.state && v(s.live.state, args.making.transparencyProof).Ok?
      && args.from.epoch < s.live.state.epoch && cap.epochStart <= s.live.state.epoch <= cap.epochEnd
    case ResealEvent(v, args) =>
      && Unlocks(c, v, s, cap, issuance, args.sk, args.openProof, args.openState)
      && PolicyAdmits(s.sealed, args.openState.epoch)
      && SealsUnder(c, s.live, cap, issuance, args.seal)
      && v(s.live.state, args.seal.making.transparencyProof).Ok?
  }

  /** Each event is ready when its turn comes. */
  ghost predicate AllReady(c: Suite, s: Session, cap: Capability, issuance: IssuanceProof, es: seq<Event>)
    decreases |es|
  {
    |es| > 0 ==>
      && Ready(c, s, cap, issuance, es[0])
      && (Advance(c, s, es[0]).Ok? ==> AllReady(c, Advance(c, s, es[0]).value, cap, issuance, es[1..]))
  }

  /** A making whose moment is on record, with the capability held. */
  ghost predicate OnRecord(
      c: Suite, moments: map<u64, Moment>, cap: Capability, issuance: IssuanceProof, m: Making)
  {
    && m.state.epoch in moments
    && var at := moments[m.state.epoch];
    && at.live.state == m.state && at.making == m && Holds(c, at.live, cap, issuance)
    && cap.epochStart <= m.state.epoch <= cap.epochEnd
  }

  /** What every session keeps: the object carries `p`, and the moments on record are those of its wrappers. */
  ghost predicate Kept(c: Suite, s: Session, cap: Capability, issuance: IssuanceProof, p: Provenance) {
    && Carries(c, s.sealed, p) && p.cap == cap && Holds(c, s.live, cap, issuance)
    && cap.objectId == s.sealed.objectId && cap.policyHash == s.sealed.policyHash
    && cap.rights.ContainsAll(s.sealed.requiredRights)
    && (forall m :: m in p.makings ==> OnRecord(c, s.moments, cap, issuance, m))
    && (forall epoch :: epoch in s.moments ==> exists m :: m in p.makings && m.state.epoch == epoch)
  }

  lemma MakingEpochsDiffer(c: Suite, o: SealedObject, p: Provenance, i: nat, j: nat)
    requires Carries(c, o, p) && i < j < |p.makings|
    ensures p.makings[i].state.epoch != p.makings[j].state.epoch
  {
    hide MakeWrapper, PayloadAad;
    WrapperEpoch(c, o, p.cap, p.dek, p.makings[i]);
    WrapperEpoch(c, o, p.cap, p.dek, p.makings[j]);
  }

  /** The making on record for an epoch, and the validity of its moment's fresh proof. */
  lemma MomentValidates(
      c: Suite, s: Session, cap: Capability, issuance: IssuanceProof, p: Provenance, epoch: u64)
      returns (i: nat)
    requires Kept(c, s, cap, issuance, p) && epoch in s.moments
    ensures i < |p.makings| && p.makings[i].state == s.moments[epoch].live.state
    ensures p.makings[i].state.epoch == epoch && p.makings[i] == s.moments[epoch].making
    ensures var proof := FreshProof(c, s.moments[epoch].live, cap, issuance);
      && proof.Some?
      && ValidateCapability(c, cap, proof.value, s.moments[epoch].live.state, RequestFor(s.sealed, epoch)).Ok?
  {
    hide Carries, Holds, FreshProof, ValidateCapability;
    var m :| m in p.makings && m.state.epoch == epoch;
    i :| 0 <= i < |p.makings| && p.makings[i] == m;
    HeldCapabilityValidates(c, s.moments[epoch].live, cap, issuance, RequestFor(s.sealed, epoch));
  }

  lemma SealKeeps(
      c: Suite, live: Live, cap: Capability, issuance: IssuanceProof, message: Bytes, args: SealArgs)
    requires Holds(c, live, cap, issuance) && SealsUnder(c, live, cap, issuance, args)
    ensures Seal(c, message, args).Ok?
    ensures Kept(c, Begin(live, Seal(c, message, args).value, args.making), cap, issuance,
                 Provenance(message, cap, args.dek, [args.making]))
  {
    hide Carries, Holds, FreshProof, ValidateCapability, MakeWrapper, PayloadAad;
    HeldCapabilityValidates(c, live, cap, issuance, args.req);
    SealCarries(c, message, args);
    assert args.making in [args.making];
    assert RequestFor(Seal(c, message, args).value, live.state.epoch) == args.req;
  }

  lemma UpkeepKeeps(
      c: Suite, s: Session, cap: Capability, issuance: IssuanceProof, u: Upkeep, p: Provenance)
    requires Kept(c, s, cap, issuance, p) && Ready(c, s, cap, issuance, AuthorityEvent(u))
    ensures Kept(c, s.(live := Maintain(c, s.live, u).value), cap, issuance, p)
  {
    hide Carries, Holds, Maintain, CapabilityStamp, OnRecord;
    UpkeepKeepsHeld(c, s.live, u, cap, issuance);
  }

  lemma RewrapStays(
      c: Suite, v: StateVerifier, s: Session, cap: Capability, issuance: IssuanceProof, args: RewrapArgs, p: Provenance)
      returns (q: Provenance)
    requires AeadDecrypts(c) && KemsAgree(c)
    requires Kept(c, s, cap, issuance, p) && Ready(c, s, cap, issuance, RewrapEvent(v, args))
    ensures Advance(c, s, RewrapEvent(v, args)).Ok?
    ensures Kept(c, Advance(c, s, RewrapEvent(v, args)).value, cap, issuance, q) && q.message == p.message
  {
    hide Carries, Holds, FreshProof, ValidateCapability, Rewrap, KeysMatch, KemsAgree, AeadDecrypts;
    hide MakeWrapper, PutWrapperInto, PayloadAad;
    var o, m := s.sealed, args.making;
    var i := MomentValidates(c, s, cap, issuance, p, args.from.epoch);
    RewrapSucceeds(c, v, o, args, p, i);
    PutCarries(c, o, p, m);
    q := Rewrapped(p, o, m);
    var next := Advance(c, s, RewrapEvent(v, args)).value;
    MomentsAfterPut(c, s, cap, issuance, p, q, next.sealed, m);
  }

  /** Recording the moment of a new making keeps the record exact. */
  lemma MomentsAfterPut(
      c: Suite, s: Session, cap: Capability, issuance: IssuanceProof, p: Provenance, q: Provenance,
      o: SealedObject, m: Making)
    requires Kept(c, s, cap, issuance, p) && Carries(c, o, q) && q == Rewrapped(p, s.sealed, m) && m in q.makings
    requires m.state == s.live.state && cap.epochStart <= m.state.epoch <= cap.epochEnd
    ensures var moments := s.moments[m.state.epoch := Moment(s.live, m)];
      && (forall x :: x in q.makings ==> OnRecord(c, moments, cap, issuance, x))
      && (forall epoch :: epoch in moments ==> exists x :: x in q.makings && x.state.epoch == epoch)
  {
    hide Carries, Holds, Rewrapped;
    var moments := s.moments[m.state.epoch := Moment(s.live, m)];
    forall x | x in q.makings
      ensures OnRecord(c, moments, cap, issuance, x)
    {
      if x != m {
        var j :| 0 <= j < |q.makings| && q.makings[j] == x;
        var k :| 0 <= k < |q.makings| && q.makings[k] == m;
        MakingEpochsDiffer(c, o, q, if j < k then j else k, if j < k then k else j);
      }
    }
    forall epoch | epoch in moments
      ensures exists x :: x in q.makings && x.state.epoch == epoch
    {
      if epoch != m.state.epoch {
        var x :| x in p.makings && x.state.epoch == epoch;
        var j :| 0 <= j < |p.makings| && p.makings[j] == x;
        KeepsOtherMakings(c, s.sealed, p, m, j);
        assert q.makings[j] == x;
      }
    }
  }

  lemma KeepsOtherMakings(c: Suite, o: SealedObject, p: Provenance, m: Making, j: nat)
    requires Carries(c, o, p) && j < |p.makings| && p.makings[j].state.epoch != m.state.epoch
    ensures j < |Rewrapped(p, o, m).makings| && Rewrapped(p, o, m).makings[j] == p.makings[j]
  {
    hide MakeWrapper, PayloadAad, FindWrapper;
    WrapperEpoch(c, o, p.cap, p.dek, p.makings[j]);
  }

  lemma ResealStays(
      c: Suite, v: StateVerifier, s: Session, cap: Capability, issuance: IssuanceProof, args: ResealArgs, p: Provenance)
      returns (q: Provenance)
    requires AeadDecrypts(c) && KemsAgree(c)
    requires Kept(c, s, cap, issuance, p) && Ready(c, s, cap, issuance, ResealEvent(v, args))
    ensures Advance(c, s, ResealEvent(v, args)).Ok?
    ensures Kept(c, Advance(c, s, ResealEvent(v, args)).value, cap, issuance, q) && q.message == p.message
  {
    hide Carries, Holds, FreshProof, ValidateCapability, Seal, KeysMatch, KemsAgree, AeadDecrypts, UnwrapDek;
    hide FindWrapper, PayloadAad, PolicyAdmits, OnRecord;
    var i := MomentValidates(c, s, cap, issuance, p, args.openState.epoch);
    MatchingKeyRecovers(c, args.sk, p.makings[i]);
    OpenSucceeds(c, v, args.sk, s.sealed, args.openProof, p, i);
    SealKeeps(c, s.live, cap, issuance, p.message, args.seal);
    q := Provenance(p.message, cap, args.seal.dek, [args.seal.making]);
  }

  lemma {:induction false} SessionKeeps(
      c: Suite, s: Session, cap: Capability, issuance: IssuanceProof, es: seq<Event>, p: Provenance)
      returns (q: Provenance)
    requires AeadDecrypts(c) && KemsAgree(c)
    requires Kept(c, s, cap, issuance, p) && AllReady(c, s, cap, issuance, es)
    ensures AdvanceAll(c, s, es).Ok?
    ensures Kept(c, AdvanceAll(c, s, es).value, cap, issuance, q) && q.message == p.message
    decreases |es|
  {
    hide Kept, AeadDecrypts, KemsAgree, Rewrap, OpenAndReseal, Maintain, Spares, Unlocks, SealsUnder;
    if |es| == 0 {
      q := p;
    } else {
      q := p;
      match es[0] {
        case AuthorityEvent(u) => UpkeepKeeps(c, s, cap, issuance, u, p);
        case RewrapEvent(v, args) => q := RewrapStays(c, v, s, cap, issuance, args, p);
        case ResealEvent(v, args) => q := ResealStays(c, v, s, cap, issuance, args, p);
      }
      q := SessionKeeps(c, Advance(c, s, es[0]).value, cap, issuance, es[1..], q);
    }
  }

  /** The object is wrapped for exactly the epochs on record. */
  ghost predicate WrappedForMoments(s: Session) {
    forall epoch :: epoch in s.moments <==> exists w :: w in s.sealed.wrappers && w.epoch == epoch
  }

  lemma KeptMomentsAreWrapped(
      c: Suite, s: Session, cap: Capability, issuance: IssuanceProof, p: Provenance)
    requires Kept(c, s, cap, issuance, p)
    ensures WrappedForMoments(s)
  {
    hide Holds, Carries;
    MakingsAreWrapped(c, s.sealed, p);
    forall w | w in s.sealed.wrappers
      ensures w.epoch in s.moments
    {
      var i :| 0 <= i < |s.sealed.wrappers| && s.sealed.wrappers[i] == w;
      assert OnRecord(c, s.moments, cap, issuance, p.makings[i]);
    }
    forall epoch | epoch in s.moments
      ensures exists w :: w in s.sealed.wrappers && w.epoch == epoch
    {
      var m :| m in p.makings && m.state.epoch == epoch;
      var i :| 0 <= i < |p.makings| && p.makings[i] == m;
      assert s.sealed.wrappers[i] in s.sealed.wrappers;
    }
  }

  lemma MakingsAreWrapped(c: Suite, o: SealedObject, p: Provenance)
    requires Carries(c, o, p)
    ensures |o.wrappers| == |p.makings|
    ensures forall i :: 0 <= i < |p.makings| ==> o.wrappers[i].epoch == p.makings[i].state.epoch
  {
    hide MakeWrapper, PayloadAad, DistinctEpochs;
    forall i | 0 <= i < |p.makings|
      ensures o.wrappers[i].epoch == p.makings[i].state.epoch
    {
      WrapperEpoch(c, o, p.cap, p.dek, p.makings[i]);
    }
  }

  /** At each epoch on record, its recipient and its proof open `message` exactly when verifier and policy admit it. */
  ghost predicate OpensAtMoments(
      c: Suite, v: StateVerifier, s: Session, cap: Capability, issuance: IssuanceProof, message: Bytes)
  {
    forall epoch | epoch in s.moments ::
      var at := s.moments[epoch];
      && FreshProof(c, at.live, cap, issuance).Some?
      && forall sk | KeysMatch(c, at.making.pk, sk) ::
        Open(c, v, sk, s.sealed, cap, FreshProof(c, at.live, cap, issuance).value, at.live.state) == Ok(message)
        <==> v(at.live.state, at.making.transparencyProof).Ok? && PolicyAdmits(s.sealed, epoch)
  }

  lemma KeptOpens(
      c: Suite, v: StateVerifier, s: Session, cap: Capability, issuance: IssuanceProof, p: Provenance)
    requires AeadDecrypts(c) && KemsAgree(c) && Kept(c, s, cap, issuance, p)
    ensures OpensAtMoments(c, v, s, cap, issuance, p.message)
  {
    hide Carries, Holds, FreshProof, ValidateCapability, KeysMatch, KemsAgree, AeadDecrypts, Open, PolicyAdmits;
    hide OnRecord;
    forall epoch | epoch in s.moments
      ensures var at := s.moments[epoch];
        && FreshProof(c, at.live, cap, issuance).Some?
        && forall sk | KeysMatch(c, at.making.pk, sk) ::
          Open(c, v, sk, s.sealed, cap, FreshProof(c, at.live, cap, issuance).value, at.live.state) == Ok(p.message)
          <==> v(at.live.state, at.making.transparencyProof).Ok? && PolicyAdmits(s.sealed, epoch)
    {
      var i := MomentValidates(c, s, cap, issuance, p, epoch);
      var proof := FreshProof(c, s.moments[epoch].live, cap, issuance).value;
      forall sk | KeysMatch(c, s.moments[epoch].making.pk, sk)
        ensures Open(c, v, sk, s.sealed, cap, proof, s.moments[epoch].live.state) == Ok(p.message)
          <==> v(p.makings[i].state, p.makings[i].transparencyProof).Ok? && PolicyAdmits(s.sealed, epoch)
      {
        OpensExactly(c, v, sk, s.sealed, proof, p, i);
      }
    }
  }

  /**
    The crate's purpose in one statement. Seal with a held capability, then let the
    authority rotate and revoke other capabilities, and let callers rewrap and reseal to
    whatever state is current, in any order and any number, each with the verifier it has
    then. Every rewrap and reseal succeeds, the object stays wrapped for exactly the epochs
    on record, and at each of them the recipient, with the proof that was fresh then, opens
    the sealed message exactly when the verifier accepts the state and the policy admits it.
   */
  lemma SealMaintainRewrapOpen(
      c: Suite, v: StateVerifier, live: Live, cap: Capability, issuance: IssuanceProof, message: Bytes,
      sealing: SealArgs, es: seq<Event>)
    requires AeadDecrypts(c) && KemsAgree(c)
    requires Holds(c, live, cap, issuance) && SealsUnder(c, live, cap, issuance, sealing)
    requires Seal(c, message, sealing).Ok? ==>
      AllReady(c, Begin(live, Seal(c, message, sealing).value, sealing.making), cap, issuance, es)
    ensures Seal(c, message, sealing).Ok?
    ensures var s := AdvanceAll(c, Begin(live, Seal(c, message, sealing).value, sealing.making), es);
      s.Ok? && WrappedForMoments(s.value) && OpensAtMoments(c, v, s.value, cap, issuance, message)
  {
    hide Holds, SealsUnder, AllReady, AdvanceAll, Begin, Kept, AeadDecrypts, KemsAgree, Seal, WrappedForMoments;
    hide OpensAtMoments;
    SealKeeps(c, live, cap, issuance, message, sealing);
    var start := Begin(live, Seal(c, message, sealing).value, sealing.making);
    var q := SessionKeeps(
      c, start, cap, issuance, es, Provenance(message, cap, sealing.dek, [sealing.making]));
    KeptMomentsAreWrapped(c, AdvanceAll(c, start, es).value, cap, issuance, q);
    KeptOpens(c, v, AdvanceAll(c, start, es).value, cap, issuance, q);
  }
}
