/** Threshold signature counting (src/kyriotes_csk2/tsig.rs). */
module Tsig {
  import opened Octets
  import opened Model
  import opened Crypto

  datatype PartialSig = PartialSig(signerIndex: u32, sig: Bytes64)

  datatype SignatureSet = SignatureSet(threshold: u32, partials: seq<PartialSig>)

  const TSIG_TAG: string := "KYRIOTES-CSK2-TSIG-EPOCH-v2"

  function SigningMessage(state: AuthorityState): Bytes {
    Tagged(TSIG_TAG, EpochFields(state))
  }

  /** A partial signature names all five fields of the epoch root. */
  lemma SigningMessageBinds(a: AuthorityState, b: AuthorityState)
    requires SigningMessage(a) == SigningMessage(b)
    ensures SameEpochRoot(a, b)
  {
    hide EpochFields;
    EpochFieldsBind(a, b);
  }

  /** The first partial submitted for position `i`, valid or not: it is the only one that can count. */
  function First(partials: seq<PartialSig>, i: nat): Option<Bytes64> {
    if partials == [] then None
    else if partials[0].signerIndex == i then Some(partials[0].sig)
    else First(partials[1..], i)
  }

  predicate Signs(c: Suite, keys: seq<Bytes32>, msg: Bytes, partials: seq<PartialSig>, i: nat) {
    i < |keys| && First(partials, i).Some? && c.verifySig(keys[i], msg, First(partials, i).value)
  }

  /** The key positions whose first submitted partial is valid. */
  ghost function Signers(c: Suite, keys: seq<Bytes32>, msg: Bytes, partials: seq<PartialSig>): set<nat> {
    set i: nat | i < |keys| && Signs(c, keys, msg, partials, i)
  }

  ghost predicate Accepts(c: Suite, state: AuthorityState, s: SignatureSet, keys: seq<Bytes32>) {
    0 < s.threshold <= |keys| && |Signers(c, keys, SigningMessage(state), s.partials)| >= s.threshold
  }

  lemma {:induction false} FirstOfExtension(partials: seq<PartialSig>, p: PartialSig, i: nat)
    ensures First(partials + [p], i) ==
      if First(partials, i).Some? then First(partials, i)
      else if p.signerIndex == i then Some(p.sig) else None
  {
    if partials != [] {
      assert (partials + [p])[1..] == partials[1..] + [p];
      FirstOfExtension(partials[1..], p, i);
    }
  }

  /** One more partial adds its signer exactly when it is in range, new and valid. */
  lemma SignersOfExtension(c: Suite, keys: seq<Bytes32>, msg: Bytes, partials: seq<PartialSig>, p: PartialSig)
    ensures var before := Signers(c, keys, msg, partials);
      Signers(c, keys, msg, partials + [p]) ==
      if p.signerIndex < |keys| && First(partials, p.signerIndex).None? && c.verifySig(keys[p.signerIndex], msg, p.sig)
      then before + {p.signerIndex} else before
  {
    forall i: nat
      ensures First(partials + [p], i) ==
        if First(partials, i).Some? then First(partials, i)
        else if p.signerIndex == i then Some(p.sig) else None
    {
      FirstOfExtension(partials, p, i);
    }
  }

  method TsigVerify(c: Suite, state: AuthorityState, s: SignatureSet, keys: seq<Bytes32>) returns (r: Result<()>)
    ensures r.Ok? <==> Accepts(c, state, s, keys)
    ensures r.Err? ==> r.error == CryptoFailure
  {
    hide SigningMessage;
    if s.threshold == 0 {
      return Err(CryptoFailure);
    }
    if s.threshold > |keys| {
      return Err(CryptoFailure);
    }
    var msg := SigningMessage(state);
    var seen := new bool[|keys|](_ => false);
    var validCount := 0;
    for k := 0 to |s.partials|
      invariant forall i :: 0 <= i < |keys| ==> seen[i] == First(s.partials[..k], i).Some?
      invariant validCount == |Signers(c, keys, msg, s.partials[..k])|
    {
      var p := s.partials[k];
      assert s.partials[..k + 1] == s.partials[..k] + [p];
      SignersOfExtension(c, keys, msg, s.partials[..k], p);
      forall i: nat | i < |keys|
        ensures First(s.partials[..k + 1], i).Some? == (First(s.partials[..k], i).Some? || p.signerIndex == i)
      {
        FirstOfExtension(s.partials[..k], p, i);
      }
      var idx := p.signerIndex;
      if idx < |keys| && !seen[idx] {
        seen[idx] := true;
        if c.verifySig(keys[idx], msg, p.sig) {
          assert idx !in Signers(c, keys, msg, s.partials[..k]);
          validCount := validCount + 1;
        }
      }
    }
    assert s.partials[..|s.partials|] == s.partials;
    r := if validCount >= s.threshold then Ok(()) else Err(CryptoFailure);
  }

  /** Submitting more partials never turns acceptance into rejection. */
  lemma {:induction false} AcceptanceIsMonotone(
      c: Suite, state: AuthorityState, s: SignatureSet, more: seq<PartialSig>, keys: seq<Bytes32>)
    requires Accepts(c, state, s, keys)
    ensures Accepts(c, state, s.(partials := s.partials + more), keys)
    decreases |more|
  {
    if more == [] {
      assert s.partials + more == s.partials;
    } else {
      var next := s.(partials := s.partials + [more[0]]);
      SignersOfExtension(c, keys, SigningMessage(state), s.partials, more[0]);
      SignersNeverShrink(Signers(c, keys, SigningMessage(state), s.partials), more[0].signerIndex);
      AcceptanceIsMonotone(c, state, next, more[1..], keys);
      assert s.partials + more == (s.partials + [more[0]]) + more[1..];
    }
  }

  lemma SignersNeverShrink(s: set<nat>, i: nat)
    ensures |s + {i}| >= |s|
  {
    if i in s {
      assert s + {i} == s;
    }
  }

  // ----- the documented rule, under which the first valid partial of a signer counts

  predicate IsValid(c: Suite, keys: seq<Bytes32>, msg: Bytes, p: PartialSig) {
    p.signerIndex < |keys| && c.verifySig(keys[p.signerIndex], msg, p.sig)
  }

  /** The key positions that submitted a valid partial, whatever else they submitted. */
  ghost function DocumentedSigners(c: Suite, keys: seq<Bytes32>, msg: Bytes, partials: seq<PartialSig>): set<nat> {
    set p | p in partials && IsValid(c, keys, msg, p) :: p.signerIndex
  }

  /** No earlier partial claims the signer of partial `a`. */
  predicate IsFirst(partials: seq<PartialSig>, a: nat)
    requires a < |partials|
  {
    forall k :: 0 <= k < a ==> partials[k].signerIndex != partials[a].signerIndex
  }

  /** Some signer in range submitted an invalid partial first and a valid one later. */
  ghost predicate Spoilt(c: Suite, keys: seq<Bytes32>, msg: Bytes, partials: seq<PartialSig>) {
    exists a, b :: 0 <= a < b < |partials|
      && IsFirst(partials, a) && partials[a].signerIndex == partials[b].signerIndex
      && !IsValid(c, keys, msg, partials[a]) && IsValid(c, keys, msg, partials[b])
  }

  lemma {:induction false} FirstIsAt(partials: seq<PartialSig>, b: nat) returns (a: nat)
    requires b < |partials|
    ensures a <= b && IsFirst(partials, a) && partials[a].signerIndex == partials[b].signerIndex
    ensures First(partials, partials[b].signerIndex) == Some(partials[a].sig)
    decreases |partials|
  {
    if partials[0].signerIndex == partials[b].signerIndex {
      a := 0;
    } else {
      var rest := FirstIsAt(partials[1..], b - 1);
      a := rest + 1;
      assert forall k :: 0 < k < a ==> partials[k] == partials[1..][k - 1];
    }
  }

  lemma {:induction false} FirstIsSubmitted(partials: seq<PartialSig>, i: nat) returns (a: nat)
    requires First(partials, i).Some?
    ensures a < |partials| && partials[a].signerIndex == i && Some(partials[a].sig) == First(partials, i)
    decreases |partials|
  {
    if partials[0].signerIndex == i {
      a := 0;
    } else {
      var rest := FirstIsSubmitted(partials[1..], i);
      a := rest + 1;
    }
  }

  /**
    The code counts no one whom the documented rule does not, and counts everyone whom it
    does if and only if no signer submitted an invalid partial ahead of a valid one.
   */
  lemma CodeMeetsDocumentedRuleIff(c: Suite, keys: seq<Bytes32>, msg: Bytes, partials: seq<PartialSig>)
    ensures Signers(c, keys, msg, partials) <= DocumentedSigners(c, keys, msg, partials)
    ensures Signers(c, keys, msg, partials) == DocumentedSigners(c, keys, msg, partials)
      <==> !Spoilt(c, keys, msg, partials)
  {
    hide First;
    var code, documented := Signers(c, keys, msg, partials), DocumentedSigners(c, keys, msg, partials);
    forall i | i in code ensures i in documented {
      var a := FirstIsSubmitted(partials, i);
      assert IsValid(c, keys, msg, partials[a]);
    }
    if Spoilt(c, keys, msg, partials) {
      var a, b :| 0 <= a < b < |partials|
        && IsFirst(partials, a) && partials[a].signerIndex == partials[b].signerIndex
        && !IsValid(c, keys, msg, partials[a]) && IsValid(c, keys, msg, partials[b]);
      var first := FirstIsAt(partials, b);
      assert partials[b].signerIndex in documented && partials[b].signerIndex !in code;
    } else {
      forall i | i in documented ensures i in code {
        var b :| 0 <= b < |partials| && IsValid(c, keys, msg, partials[b]) && partials[b].signerIndex == i;
        var a := FirstIsAt(partials, b);
      }
    }
  }

  /** One key, a bad partial and then a good one: the documented rule counts the signer and the code does not. */
  lemma BadThenGoodIsNotCounted(c: Suite, key: Bytes32, msg: Bytes, bad: Bytes64, good: Bytes64)
    requires !c.verifySig(key, msg, bad) && c.verifySig(key, msg, good)
    ensures var partials := [PartialSig(0, bad), PartialSig(0, good)];
      Signers(c, [key], msg, partials) == {} && DocumentedSigners(c, [key], msg, partials) == {0}
  {
    assert IsValid(c, [key], msg, PartialSig(0, good));
    assert PartialSig(0, good) in [PartialSig(0, bad), PartialSig(0, good)];
  }

  // ----- what a threshold set vouches for

  /** `tsig_sign` */
  function Sign(c: Suite, state: AuthorityState, sk: Bytes32, signerIndex: u32): PartialSig {
    PartialSig(signerIndex, c.sign(sk, SigningMessage(state)))
  }

  ghost function Below(n: nat): (b: set<nat>)
    ensures |b| == n && forall i: nat :: i in b <==> i < n
  {
    if n == 0 then {} else Below(n - 1) + {n - 1}
  }

  lemma {:induction false} SubsetIsNoLarger(a: set<nat>, b: set<nat>)
    requires a <= b
    ensures |a| <= |b|
  {
    if a != {} {
      var x :| x in a;
      SubsetIsNoLarger(a - {x}, b - {x});
    }
  }

  lemma QuorumsMeet(a: set<nat>, b: set<nat>, n: nat) returns (i: nat)
    requires a <= Below(n) && b <= Below(n) && |a| + |b| > n
    ensures i in a && i in b
  {
    SubsetIsNoLarger(a + b, Below(n));
    assert a * b != {};
    i :| i in a * b;
  }

  /** The positions that can sign: key positions with a 32-bit index. */
  function Reach(n: nat): nat {
    if n < U32_SPAN then n else U32_SPAN
  }

  lemma SignersWithinReach(c: Suite, keys: seq<Bytes32>, msg: Bytes, partials: seq<PartialSig>)
    ensures Signers(c, keys, msg, partials) <= Below(Reach(|keys|))
  {
    hide First;
    forall i | i in Signers(c, keys, msg, partials)
      ensures i in Below(Reach(|keys|))
    {
      var a := FirstIsSubmitted(partials, i);
    }
  }

  /** With a majority threshold, one set of signatures vouches for at most one epoch root. */
  lemma MajorityVouchesForOneRoot(
      c: Suite, M: set<Bytes>, a: AuthorityState, b: AuthorityState, s: SignatureSet, keys: seq<Bytes32>)
    requires SignaturesBind(c, M) && SigningMessage(a) in M && SigningMessage(b) in M
    requires Accepts(c, a, s, keys) && Accepts(c, b, s, keys) && 2 * s.threshold > Reach(|keys|)
    ensures SameEpochRoot(a, b)
  {
    hide SigningMessage, First;
    var inA, inB := Signers(c, keys, SigningMessage(a), s.partials), Signers(c, keys, SigningMessage(b), s.partials);
    SignersWithinReach(c, keys, SigningMessage(a), s.partials);
    SignersWithinReach(c, keys, SigningMessage(b), s.partials);
    var i := QuorumsMeet(inA, inB, Reach(|keys|));
    assert SigningMessage(a) == SigningMessage(b);
    SigningMessageBinds(a, b);
  }

  /** Enough signers whose first partial is their own make a set that is accepted. */
  lemma SignedQuorumIsAccepted(
      c: Suite, state: AuthorityState, s: SignatureSet, sks: seq<Bytes32>, keys: seq<Bytes32>, signers: set<nat>)
    requires SignaturesVerify(c) && 0 < s.threshold <= |keys| && |sks| == |keys| && |signers| >= s.threshold
    requires forall i | 0 <= i < |keys| :: keys[i] == c.signingPk(sks[i])
    requires forall i | i in signers ::
      i < |keys| && First(s.partials, i) == Some(c.sign(sks[i], SigningMessage(state)))
    ensures Accepts(c, state, s, keys)
  {
    hide SigningMessage, First;
    SubsetIsNoLarger(signers, Signers(c, keys, SigningMessage(state), s.partials));
  }

  /** Of any signers, the first `t` sign for `a` and the next `t` for `b`. */
  function SplitSet(c: Suite, a: AuthorityState, b: AuthorityState, sks: seq<Bytes32>, t: u32): SignatureSet
    requires 2 * t <= Reach(|sks|)
  {
    SignatureSet(t, seq(2 * t, i requires 0 <= i < 2 * t => Sign(c, if i < t then a else b, sks[i], i)))
  }

  lemma SplitSetIsAcceptedTwice(
      c: Suite, a: AuthorityState, b: AuthorityState, sks: seq<Bytes32>, t: u32, keys: seq<Bytes32>)
    requires SignaturesVerify(c) && 0 < 2 * t <= Reach(|sks|) && |keys| == |sks|
    requires forall i | 0 <= i < |keys| :: keys[i] == c.signingPk(sks[i])
    ensures Accepts(c, a, SplitSet(c, a, b, sks, t), keys) && Accepts(c, b, SplitSet(c, a, b, sks, t), keys)
  {
    hide SigningMessage, First, Accepts, Below, SignaturesVerify;
    var s := SplitSet(c, a, b, sks, t);
    forall i | 0 <= i < 2 * t
      ensures First(s.partials, i) == Some(s.partials[i].sig)
    {
      var k := FirstIsAt(s.partials, i);
    }
    var low, high := Below(t), Below(2 * t) - Below(t);
    assert Below(t) * Below(2 * t) == Below(t);
    SignedQuorumIsAccepted(c, a, s, sks, keys, low);
    SignedQuorumIsAccepted(c, b, s, sks, keys, high);
  }

  ghost predicate VouchesForBoth(
      c: Suite, a: AuthorityState, b: AuthorityState, t: u32, n: nat, s: SignatureSet, keys: seq<Bytes32>)
  {
    s.threshold == t && |keys| == n && Accepts(c, a, s, keys) && Accepts(c, b, s, keys)
  }

  /**
    Exactly which thresholds rule out a double vouch: for two different epoch roots, some
    set and keys of these sizes are accepted for both if and only if the threshold is at
    most half of the positions that can sign.
   */
  lemma DoubleVouchIff(c: Suite, M: set<Bytes>, a: AuthorityState, b: AuthorityState, t: u32, n: nat)
    requires SignaturesVerify(c) && SignaturesBind(c, M) && SigningMessage(a) in M && SigningMessage(b) in M
    requires !SameEpochRoot(a, b) && 0 < t <= n
    ensures (exists s, keys :: VouchesForBoth(c, a, b, t, n, s, keys)) <==> 2 * t <= Reach(n)
  {
    hide SigningMessage, Accepts, SignaturesBind, SignaturesVerify;
    if 2 * t <= Reach(n) {
      var sks: seq<Bytes32> := seq(n, _ => ZERO);
      var keys := seq(n, i requires 0 <= i < n => c.signingPk(sks[i]));
      SplitSetIsAcceptedTwice(c, a, b, sks, t, keys);
      assert VouchesForBoth(c, a, b, t, n, SplitSet(c, a, b, sks, t), keys);
    }
    forall s, keys | VouchesForBoth(c, a, b, t, n, s, keys)
      ensures 2 * t <= Reach(n)
    {
      if 2 * t > Reach(n) {
        MajorityVouchesForOneRoot(c, M, a, b, s, keys);
      }
    }
  }
}
