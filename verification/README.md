# Kyriotēs-CSK2 in Dafny

A verification model of the Kyriotēs-CSK2 crate: objects sealed under capabilities that an
authority issues, revokes and publishes epoch by epoch through Merkle trees and a
transparency log. The model is byte-exact where the crate hashes, signs, encrypts or
encodes, and `dafny verify dfyconfig.toml` checks all of it.

| file | part of the crate |
|---|---|
| Octets, Policy | byte types, errors, rights masks, temporal policies |
| Codec, Text, Buffers, Wire, Formats | primitive codec, what its text check means, its growing buffer and cursor, the object codec, and the flat byte layouts and domains |
| Merkle, ChainHash, TransparencyLog | the padded tree, the epoch chain hash, the log as a state machine |
| Model, CapabilityTree, Authority, Tsig, Verifier | records and hash inputs, the tree and its witnesses, certificates, validation and delegation, threshold signatures, state verification |
| Lifecycle, Engine | issue, revoke and rotate as functions over whole runs, and as methods on the objects |
| Crypto, SampleSuite, Sealing, Rewrapping, Binding | primitives and their assumed properties, seal and open, runs of rewraps and reseals, what a ciphertext is bound to |
| EndToEnd | theorems across all of it |

## How the model is set up

* **Primitives are parameters.** The hash and the fields of `Suite` (signatures, AEAD, HKDF,
  Diffie-Hellman, KEM) are arbitrary functions, so each theorem names what it assumes of
  them. Completeness theorems assume only that signatures verify, ciphertexts decrypt and
  KEMs agree. Binding theorems assume ideal encryption, or that among the messages in
  question one signature verifies for at most one. `SampleSuite` gives a suite and a session
  that meet these assumptions together, with an issue, a seal, a rotation and a rewrap that
  succeed.
* **Soundness is relative to a set of queries.** No fixed-length hash is injective, so a
  soundness theorem takes a finite set `Q` of strings, assumes no collision inside `Q` and
  no preimage there of the two reserved arrays, and asks that `Q` hold what the tree, path
  or chain in question hashes (`TreeWithin`, `PathWithin`, `ChainWithin`).
* **Randomness is an argument.** Data keys, nonces, ephemeral secrets, KEM coins and epoch
  key seeds are passed in.
* **Objects that change are classes.** The tree, the log, the evidence registry, the
  encoder buffer, the decoder cursor and the rewrapped object are classes whose methods are
  proved against functions; theorems over runs are about those functions.
* **Integers.** Epochs are 64-bit. Lengths cast with `as u32` wrap at 2^32. Revocation
  counts and leaf indices are vector lengths and positions, modelled as naturals and cut to
  64 bits where encoded. Rights are a 16-bit mask. The saturating addition of certificate
  windows is written out.
* **Strings** are their UTF-8 bytes; the decoder checks section 4 of RFC 3629. Errors keep
  their class and drop their reason text.

## Where the code and its documentation differ

The model follows the code.

* `src/kyriotes_csk2/tsig.rs:131-134` says the first valid partial of a signer counts. The
  code lets the first submitted partial use up the signer. `Tsig.CodeMeetsDocumentedRuleIff`
  says exactly when the two agree.
* `src/kyriotes_csk2/engine.rs:1218` calls issue-and-commit atomic. The tree is changed
  before the log can refuse. `Lifecycle.IssueAndCommitIsAtomicIff` and
  `Lifecycle.RevokeAndCommitIsAtomicIff` give the exact condition.
* `src/kyriotes_csk2/capability_tree.rs:340-357` does not check that a path has the tree's
  depth, which the witness rules at lines 399-407 take for granted.
  `CapabilityTree.SoundWithoutDepthIff` gives the exact condition, and
  `CapabilityTree.NonRevocationSound` holds for every list once paths have that depth.
  Inclusion proofs need no such condition, because leaf inputs are domain-separated.
* `src/kyriotes_csk2/model.rs:216-221` wants a revocation to stay detectable at every later
  epoch. Stamps do survive rotation, but a rotation copies roots and count from a base that
  nothing compares with the tree, so a rotation on a base from before the revocation
  publishes the old list at a later epoch. `Lifecycle.RotatedStateAcceptsIff` says exactly
  what the base decides, `Lifecycle.StaleRotationAcceptsRevoked` gives the failing family,
  and `Lifecycle.CarefulStepRejectsRevoked` and `Lifecycle.RevokedStaysRejected` prove
  permanence for callers who rotate on the current list or the last published state.
* `src/kyriotes_csk2/engine.rs:1226-1227` asks that an issue's base and tree agree on roots
  and count. Only the roots are checked. `CapabilityTree.CountIsSoundIff` says which counts
  are safe.
* `docs/Kyriotes-CSK2-Spec-Sheet.md:285-296` defines when each temporal policy accepts. The
  code admits every epoch from the seal on under `Current`, nothing under a `Historical`
  policy that does not name the seal epoch, and under `ResealRequired` the seal epoch and
  the epochs after the limit rather than those up to it.
  `Policy.AgreesWithDocumentationIff` gives the exact conditions.
* `src/kyriotes_csk2/authority.rs:33` calls the validity window informational, and
  `src/kyriotes_csk2/verify.rs:298-299` says a certificate covers the epochs from its own up
  to the end of its window. State verification checks the end only, so a state before the
  certificate's epoch is accepted: `Verifier.AcceptedIsInWindowIff` gives the exact
  condition and `Verifier.EarlyStateIsAccepted` the failing family. Issuance verification
  checks both ends, but capability validation calls it with the certificate's own epoch, so
  what remains there is that the window is positive and does not saturate.
* `src/kyriotes_csk2/authority.rs:8` shows a version 1 epoch root message without the
  transparency root. The code signs version 2, which includes it.

## Model

| member | source | states |
|---|---|---|
| `EndToEnd.SealMaintainRewrapOpen` | src/kyriotes_csk2/engine.rs:667-800 | From a seal with a held capability, over every interleaving of rotations, revocations of others, rewraps and reseals, each with the verifier of its own moment: every rewrap and reseal succeeds, the object stays wrapped for exactly the epochs on record, and at each of them the recipient opens the message, with the proof that was fresh then, if and only if the verifier accepts the state and the policy admits the epoch |
| `EndToEnd.RevokedCapabilityNeverOpens` | src/kyriotes_csk2/engine.rs:589-633 | After a revocation and any later steps of the authority, no object, key, verifier or full-depth proof opens or verifies under a state that publishes the resulting revocation list |
| `EndToEnd.RevokedCapabilityStaysClosed` | src/kyriotes_csk2/engine.rs:940-983 | Along every run that works on the last published state, from the revocation on, the capability opens and verifies nothing at the state published last, with nothing assumed of that state |
| `Rewrapping.RunKeepsTheMessage` | src/kyriotes_csk2/engine.rs:699-800 | Over every run of rewraps and reseals, failed ones included and each with its own verifier, all wrappers wrap the one data key, wrapper epochs stay distinct, the message is unchanged, and each wrapper was there at the start or was made by an operation of the run whose verifier accepted its state; rewraps alone also keep the key, the capability, every wrapped epoch and everything but the wrapper list |
| `Rewrapping.SealedRunOpensToItsMessage` | src/kyriotes_csk2/engine.rs:611-633 | Whatever opens after sealing and any such run, with any key, capability and proof, is the sealed message |
| `Rewrapping.SealedRunOpensAtEveryWrapper` | src/kyriotes_csk2/engine.rs:589-633 | After sealing and any run, each wrapper comes from the seal or from an operation of the run, and with the matching key its state opens to the sealed message if and only if the verifier accepts it, the policy admits the epoch and the capability validates there |
| `Rewrapping.RewrapKeeps` | src/kyriotes_csk2/engine.rs:667-696 | A rewrap that succeeds had both states verified, the capability valid at the old epoch and in its window at the new one, was made with the sealing capability, adds the new epoch, loses none, and leaves the payload and every other field alone |
| `Rewrapping.RewrapSucceeds` | src/kyriotes_csk2/engine.rs:721-800 | The holder of the matching key can move a wrapped state forward to any later epoch inside the capability window |
| `Rewrapping.RewrapErrors` | src/kyriotes_csk2/engine.rs:667-721 | Which error a missing wrapper, an unaccepted state and an invalid capability give, in this order |
| `Rewrapping.ResealKeeps` | src/kyriotes_csk2/engine.rs:1034-1107 | A reseal that succeeds equals sealing the original message afresh, needs the new state verified, and would have opened the old object |
| `Rewrapping.SealCarries` | src/kyriotes_csk2/engine.rs:401-478 | Sealing needs a capability that validates for exactly the request it seals under, produces one wrapper for the seal epoch, and records version, suite, both roots, policy and nonce of the call |
| `Rewrapping.UnwrapReturnsTheKey` | src/kyriotes_csk2/engine.rs:521-572 | Whatever unwraps from a made wrapper is the wrapped key, and the opener stamp is the maker stamp |
| `Rewrapping.UnwrapNeedsTheSecret` | src/kyriotes_csk2/engine.rs:554-571 | Whatever unwraps a made wrapper decapsulated to the encapsulated secret, under the digest it was made with |
| `Rewrapping.OpenNeedsTheSecret` | src/kyriotes_csk2/engine.rs:611-633 | Whatever opens, with any key, capability, proof and state, recovered the secret of the wrapper it opened |
| `Rewrapping.OpensForKeyIff` | src/kyriotes_csk2/engine.rs:589-633 | For every key, matching or not, a wrapped state opens if and only if verifier, policy and capability admit it and the key recovers the secret |
| `Rewrapping.RecoveringTakesBothHalves` | src/kyriotes_csk2/kem.rs:58-113 | A key recovers the secret if and only if it computes the same Diffie-Hellman value and, when the post-quantum half was used, the same post-quantum secret |
| `Rewrapping.OpensIffVerifies` | src/kyriotes_csk2/engine.rs:940-983 | With the matching key, a wrapped state opens to the message if and only if the object verifies there |
| `Rewrapping.OpenReturnsTheMessage` | src/kyriotes_csk2/engine.rs:589-633 | Every successful open of an object returns the message it was built from |
| `Rewrapping.OpenSucceeds` | src/kyriotes_csk2/engine.rs:310-333 | With the matching key, an accepting verifier, a valid capability and an admitting policy, opening at each wrapped state succeeds with the message |
| `Rewrapping.ObjectCell.AddEpochWrapper` | src/kyriotes_csk2/engine.rs:699-800 | The in-place update replaces the object on success and leaves it untouched on every error path |
| `Binding.FieldBinding` | src/kyriotes_csk2/engine.rs:521-633 | An altered object that keeps the payload ciphertext and the selected wrapped key opens only if its header, its payload nonce and the selected wrapper (all but its transparency proof) are the sealed ones, only under the epoch, authority and three roots the wrapper was made for, and only with the sealing capability |
| `Binding.UnwrapBinds` | src/kyriotes_csk2/engine.rs:521-572 | A wrapped key that unwraps elsewhere does so only with the same object id, rights, policy hash, temporal policy and KEM ciphertexts, under a state with the same epoch, authority and three roots, and for the same capability stamp |
| `Binding.UnwrapBindsKeyAndCount` | src/kyriotes_csk2/engine.rs:166-194 | Through the wrapping key, a wrapped key also unwraps only for who recovers the encapsulated secret and only under a state with the same revocation count |
| `Binding.OtherFieldsAreUnbound` | src/kyriotes_csk2/engine.rs:270-304 | The converse: version, suite name and the two roots stored in the object are bound by nothing and never change what opening returns |
| `Binding.AuthorityAadInjective` | src/kyriotes_csk2/engine.rs:270-294 | The wrapper associated data determines every field it is built from |
| `Binding.ContextInputInjective` | src/kyriotes_csk2/model.rs:242-266 | The context hash input determines object, rights, policy hash, temporal policy, epoch, authority, three roots and capability stamp |
| `Binding.ContextsAgreeIff` | src/kyriotes_csk2/model.rs:242-266 | Context hashes are equal if and only if those fields are, so a wrapper for one context never matches another |
| `Sealing.KemRoundTrip` | src/kyriotes_csk2/kem.rs:19-113 | Both ends of the hybrid KEM derive the same secret, with the post-quantum key present, absent, or malformed in any way that encapsulation skips |
| `Sealing.EncapsulationUsesWhatItCan` | src/kyriotes_csk2/kem.rs:19-51 | The post-quantum half enters ciphertext and secret whenever there is a usable key for it, and is left out of both otherwise |
| `Sealing.SecretsAgreeIff` | src/kyriotes_csk2/kem.rs:89-113 | Shared secrets are equal if and only if mode, classical half and post-quantum half are: a hybrid secret is never a classical-only one |
| `Sealing.KeksAgreeIff` | src/kyriotes_csk2/engine.rs:180-194 | Wrapping keys are equal if and only if authority digest, shared secret and context are |
| `Sealing.DigestInputInjective` | src/kyriotes_csk2/engine.rs:166-178 | The digest input determines roots, epoch, policy hash, authority and revocation count, although the authority is unframed |
| `Sealing.VerifiesIff` | src/kyriotes_csk2/engine.rs:940-983 | Verifying accepts if and only if the verifier accepts the state, the temporal policy admits its epoch and the capability validates for the object |
| `Sealing.SelectionErrors` | src/kyriotes_csk2/engine.rs:310-333 | Which error each failing gate of the wrapper selection gives, each as an if-and-only-if |
| `Sealing.OpeningErrors` | src/kyriotes_csk2/engine.rs:589-633 | Which error each failing gate of opening and of verifying gives, in the order of the gates |
| `Sealing.OpenRefinesVerify` | src/kyriotes_csk2/engine.rs:589-633 | Whatever opens also passes verification with the selected wrapper proof, at an epoch that the temporal policy accepts and requires |
| `Lifecycle.RevocationIsPermanent` | src/kyriotes_csk2/engine.rs:841-896 | After a successful revocation and any run of issues, revocations and rotations, failed ones included, no witness can be generated for the stamp and no full-depth proof validates under a state publishing the list; the next five rows say which states those are |
| `Lifecycle.CarefulStepRejectsRevoked` | src/kyriotes_csk2/engine.rs:841-896 | After a revocation and a run with any bases, the next successful step whose base carries the current list (rotation) or count (issue) publishes a state that rejects the capability; a revocation needs no such care |
| `Lifecycle.RevokedStaysRejected` | src/kyriotes_csk2/model.rs:214-226 | Along every run built on the last published state, the state published last rejects the revoked capability at its epoch, with nothing assumed of that state |
| `Lifecycle.RotatedStateAcceptsIff` | src/kyriotes_csk2/engine.rs:1435-1450 | Whatever the tree holds, some full-depth proof validates under a rotated state if and only if the stamp is not in the list that the base of the rotation published |
| `Lifecycle.StaleRotationAcceptsRevoked` | src/kyriotes_csk2/engine.rs:1435-1517 | The failing family: after a revocation, a rotation to a later epoch on the state from before is committed, and the proof from before validates under it for exactly the requests the capability grants |
| `Lifecycle.AdmittedRotationSucceeds` | src/kyriotes_csk2/engine.rs:1477-1517 | A rotation succeeds if and only if the log holds no other state for the new epoch: no other check stands in its way |
| `Lifecycle.RotationCarriesOver` | src/kyriotes_csk2/engine.rs:1435-1450 | A rotation keeps tree, roots, count and authority, takes epoch and previous hash from the call, and certifies the fresh key for that epoch and window |
| `Lifecycle.RunKeepsRevocations` | src/kyriotes_csk2/engine.rs:841-896 | Every run keeps the revocation list strictly sorted and never drops a stamp |
| `Lifecycle.RevocationPublishes` | src/kyriotes_csk2/engine.rs:841-881 | A successful revocation was of an active capability, adds exactly its stamp, moves to a later epoch whose root and count publish the list, and keeps authority, root key and previous hash |
| `Lifecycle.ValidationIsSound` | src/kyriotes_csk2/engine.rs:37-99 | What validation accepts under published roots was added to the tree, is not revoked, has a well-formed parent stamp, was signed by a certified epoch key for this very root, grants the request, and holds each single right it asks for |
| `Lifecycle.HeldCapabilityValidates` | src/kyriotes_csk2/engine.rs:37-99 | A held capability with fresh proofs validates for a request if and only if its window, rights, policy hash and object cover the request at the published epoch, and then holds each single right asked for |
| `Lifecycle.LifecycleCompleteness` | src/kyriotes_csk2/engine.rs:1228-1256 | From issuing onward, any successful rotations and revocations of other capabilities leave the original issuance proof valid for exactly the requests the capability grants |
| `Lifecycle.MaintenanceKeepsHeld` | src/kyriotes_csk2/engine.rs:1477-1517 | Every successful rotation or revocation of another capability keeps the capability held |
| `Lifecycle.IssuanceVerifies` | src/kyriotes_csk2/capability_tree.rs:531-574 | A fresh issuance proof verifies if and only if its certificate covers its own epoch: a positive window whose sum does not saturate there |
| `Lifecycle.IssuanceIsTiedToItsRoot` | src/kyriotes_csk2/capability_tree.rs:531-574 | An issuance proof is accepted under a root if and only if it is the root its signer saw |
| `Lifecycle.NewIssuanceMovesTheRoot` | src/kyriotes_csk2/engine.rs:1194-1216 | Issuing leaves the authority root in place if and only if the capability was already active, so any new issuance retires earlier issuance proofs |
| `Lifecycle.IssuanceOutlivesRunIff` | src/kyriotes_csk2/engine.rs:1194-1256 | After any successful run of rotations, revocations of others and further issues, the original issuance proof with fresh tree proofs validates if and only if the capability grants the request and everything issued meanwhile was already active |
| `Lifecycle.IssuedCapabilityLastsIff` | src/kyriotes_csk2/engine.rs:1228-1256 | The same stated from the issue-and-commit call itself |
| `Lifecycle.IssueAndCommitIsAtomicIff` | src/kyriotes_csk2/engine.rs:1218-1256 | The documented atomicity of issue-and-commit holds if and only if the call fails before the tree changes, the log holds no other state for the epoch, or the capability was already active |
| `Lifecycle.IssuePublishes` | src/kyriotes_csk2/engine.rs:1247-1256 | Issuing publishes the base with only the authority root and the log root replaced, and changes the tree by that leaf alone |
| `Lifecycle.RevokeAndCommitIsAtomicIff` | src/kyriotes_csk2/engine.rs:887-896 | A failed revoke-and-commit leaves everything as it was if and only if one of its own guards fails first, the log holds no other state for the epoch, or the stamp was already revoked |
| `Lifecycle.RefusedIssueStaysInTree` | src/kyriotes_csk2/engine.rs:1228-1256 | The failing family made concrete: the log refuses and the capability is nevertheless left in the tree |
| `Lifecycle.RefusedRevocationStaysInTree` | src/kyriotes_csk2/engine.rs:887-896 | The same for revoking: the log refuses and the stamp is in the revocation list nevertheless |
| `Lifecycle.IssueErrors` | src/kyriotes_csk2/engine.rs:1228-1256 | Issuing succeeds if and only if its guards and the log admit it, and each failing guard gives its own error class |
| `Lifecycle.RevocationErrors` | src/kyriotes_csk2/engine.rs:841-896 | Revoking succeeds if and only if its guards and the log admit it, and each failing guard gives its own error class |
| `Lifecycle.OtherStampsDiffer` | src/kyriotes_csk2/model.rs:214-226 | Distinct capabilities have distinct stamps, so revoking one spares the other |
| `Lifecycle.RotationHashesItself` | src/kyriotes_csk2/engine.rs:1593-1633 | Every rotation hashes its own link onto the previous hash it names, and the log hands that hash out for its key |
| `Lifecycle.RotationHistoryIsBound` | src/kyriotes_csk2/engine.rs:1477-1517 | Two linked rotation histories whose last chain hashes agree went through the same roots, epochs, keys and signatures, step by step |
| `Lifecycle.EpochRootMessageBinds` | src/kyriotes_csk2/authority.rs:87-102 | An epoch root signature fixes all five signed fields |
| `Engine.RevokeCapability` | src/kyriotes_csk2/engine.rs:841-881 | The in-place revocation ends in exactly the specified tree and result; every refusal leaves the tree unchanged |
| `Engine.RevokeCapabilityAndCommit` | src/kyriotes_csk2/engine.rs:887-896 | Tree, log and result are exactly those of the specification on success and on refusal by the log |
| `Engine.IssueCapability` | src/kyriotes_csk2/engine.rs:1194-1216 | The in-place issue ends in exactly the specified tree and proof |
| `Engine.IssueCapabilityAndCommit` | src/kyriotes_csk2/engine.rs:1228-1256 | Tree, log and result are exactly those of the specification, the partial change of a refused commit included |
| `Engine.RotateEpochFull` | src/kyriotes_csk2/engine.rs:1635-1659 | Log and rotation are exactly those of the specification, the chain hash stored in the committed entry included |
| `Verifier.RotationVerifies` | src/kyriotes_csk2/engine.rs:1545-1562 | A rotation is accepted by its own verifier if and only if its validity window is positive and the epoch is below the largest 64-bit value |
| `Verifier.CheckState` | src/kyriotes_csk2/verify.rs:280-363 | The verifier run over the registry object, with its counting loop, returns what the specification returns, with the same path and errors; the Verifier rows that follow say what acceptance means |
| `Verifier.AcceptanceMeans` | src/kyriotes_csk2/verify.rs:280-363 | Every acceptance, on each path, rests on a verified transparency proof and on registered evidence: a legacy signature over the whole state, or a key certified by the root for an unfinished window that signed the epoch root, or enough distinct positions that did |
| `Verifier.LegacyAcceptsIff` | src/kyriotes_csk2/verify.rs:342-356 | The legacy path accepts if and only if the registered key signed the state message and the transparency proof verifies |
| `Verifier.CertChainAcceptsIff` | src/kyriotes_csk2/verify.rs:293-358 | The certificate path accepts single-signature evidence if and only if the root certified the key, the window has not ended, the key signed the epoch root and the transparency proof verifies |
| `Verifier.RefusalIsMismatch` | src/kyriotes_csk2/verify.rs:280-363 | Every refusal of the verifier is an authority state error |
| `Verifier.AcceptedStateIsUnique` | src/kyriotes_csk2/verify.rs:280-363 | Two accepted states of one authority and epoch, the first against a root the log had at some moment, are the same state up to the root key and were committed by then, on the legacy, single-signature and majority-threshold paths |
| `Verifier.RegistryVouchesForOneRoot` | src/kyriotes_csk2/verify.rs:310-352 | One registry has at most one epoch root accepted per authority and epoch, by signatures alone: always with a single signature, and with threshold evidence when the threshold is more than half |
| `Verifier.SharedSignaturesShareRoot` | src/kyriotes_csk2/verify.rs:294-342 | Across registries, acceptances resting on the same two signatures rest on one certificate and one epoch root |
| `Verifier.GrowingRegistryKeepsAnswers` | src/kyriotes_csk2/verify.rs:170-186 | Adding evidence for other keys changes no answer of the verifier |
| `Verifier.MinorityVouchesForTwoRoots` | src/kyriotes_csk2/verify.rs:310-326 | The failing family: with a threshold of at most half, for any signers and any two states of one authority and epoch, one piece of evidence has both accepted |
| `Verifier.AcceptedIsInWindowIff` | src/kyriotes_csk2/verify.rs:298-308 | A state accepted through a certificate lies in the documented window of that certificate if and only if it is not before its first epoch |
| `Verifier.EarlyStateIsAccepted` | src/kyriotes_csk2/verify.rs:298-308 | The failing family: every committed state is accepted under a certificate for any later epoch and any window, an empty one included |
| `Verifier.RootKeyIsNotRead` | src/kyriotes_csk2/verify.rs:280-363 | Why uniqueness stops at the root key: acceptance never depends on the root key stored in the state |
| `Verifier.StateMessageBinds` | src/kyriotes_csk2/verify.rs:365-376 | A legacy signature fixes every field of the state but the root key |
| `Verifier.RegistryIsAMap` | src/kyriotes_csk2/verify.rs:170-186 | Adding evidence makes its own key find it and leaves every other key as it was |
| `Verifier.AuthorityEvidenceRegistry.Add` | src/kyriotes_csk2/verify.rs:170-180 | Adding replaces in place or appends, and lookup then returns the added evidence |
| `Verifier.CommittedProofVerifies` | src/kyriotes_csk2/transparency.rs:133-142 | The state and proof that a commit returns verify on the spot |
| `Authority.DelegationAttenuates` | src/kyriotes_csk2/engine.rs:115-164 | Down a delegation chain of any length rights and window only narrow, policy, object and version stay the same, every proper ancestor could delegate, depth counts the steps up to 255, and each link has exactly the rights, subject and nonce asked for and names its parent |
| `Authority.DelegationGrantsNothingNew` | src/kyriotes_csk2/engine.rs:115-164 | Whatever request a descendant in a delegation chain is granted, every ancestor is granted |
| `Authority.DelegationSucceedsIff` | src/kyriotes_csk2/engine.rs:115-164 | Delegation succeeds if and only if the parent holds the delegate right and each right asked for, the window fits and the depth is below 255, and then hands on exactly what was asked for |
| `Authority.ChildGrantsIff` | src/kyriotes_csk2/engine.rs:151-163 | A child is granted a request if and only if its parent is and the delegation asked for those rights and that epoch |
| `Authority.DescendantGrantsIff` | src/kyriotes_csk2/engine.rs:115-164 | At the end of a chain of any length a request is granted if and only if the root grants it and every step asked for it |
| `Authority.GrantsIff` | src/kyriotes_csk2/engine.rs:79-98 | A capability grants a request if and only if object, policy hash and epoch agree and each right asked for is held |
| `Authority.StrippedDelegationIsRejected` | src/kyriotes_csk2/engine.rs:37-99 | A delegated capability passed off as a root one, or cut from its parent, never validates |
| `Authority.DelegatedIsWellFormedIff` | src/kyriotes_csk2/engine.rs:151-163 | What delegation returns has a well-formed parent stamp if and only if the parent stamp is not the reserved array |
| `Authority.IssuanceAcceptsIff` | src/kyriotes_csk2/capability_tree.rs:531-574 | Issuance verification accepts if and only if the root certified the key, the epoch lies in both ends of its window, the certificate epoch lies in the capability window and the key signed leaf, root and epoch |
| `Authority.CertMessageBinds` | src/kyriotes_csk2/authority.rs:46-57 | A certificate signature fixes the key, the epoch and the window |
| `Authority.OneSignatureOneCertificate` | src/kyriotes_csk2/authority.rs:126-137 | Under one root key, one signature certifies at most one key, epoch and window |
| `Authority.IssuanceMessageBinds` | src/kyriotes_csk2/authority.rs:64-75 | An issuance signature fixes the capability leaf, the authority root and the epoch |
| `CapabilityTree.NonRevocationSound` | src/kyriotes_csk2/capability_tree.rs:408-520 | A witness accepted against the root and count, with bound paths of the tree depth and any indices, is for a stamp that is not revoked |
| `CapabilityTree.WitnessesExistExactlyForAbsentStamps` | src/kyriotes_csk2/capability_tree.rs:151-187 | A full-depth witness that verifies exists for a stamp if and only if the stamp is not revoked |
| `CapabilityTree.SoundWithoutDepthIff` | src/kyriotes_csk2/capability_tree.rs:340-357 | Without a check on path length, the verifier is sound for witnesses of every shape if and only if at most one stamp is revoked |
| `CapabilityTree.DepthIsNeeded` | src/kyriotes_csk2/capability_tree.rs:340-357 | The failing family: from two revoked stamps on, a zero-length path is accepted for every stamp but the root itself |
| `CapabilityTree.CountIsSoundIff` | src/kyriotes_csk2/capability_tree.rs:408-520 | Exactly which published counts make the verifier sound for a list: the true one always, no smaller positive one, and otherwise by the index cut to the tree depth |
| `CapabilityTree.MiscountIsAccepted` | src/kyriotes_csk2/capability_tree.rs:488-497 | The failing family: under each unsafe count a revoked stamp is accepted with a full-depth witness |
| `CapabilityTree.WitnessComplete` | src/kyriotes_csk2/capability_tree.rs:151-187 | The generator answers exactly for absent stamps and its answers verify and have full depth |
| `CapabilityTree.InsertStampIsSortedSetInsert` | src/kyriotes_csk2/capability_tree.rs:129-135 | Revoking keeps strict order, adds exactly the stamp, and a second revocation changes nothing |
| `CapabilityTree.InclusionSound` | src/kyriotes_csk2/capability_tree.rs:365-387 | An accepted inclusion proof, of any length and index, means that this very capability was added, at the position in the low bits of the index |
| `CapabilityTree.InclusionComplete` | src/kyriotes_csk2/capability_tree.rs:212-221 | A proof is generated for exactly the active capabilities, and it verifies |
| `CapabilityTree.AuthorityCapabilityTree.AddCapability` | src/kyriotes_csk2/capability_tree.rs:116-122 | Adding appends the leaf unless present, and keeps the revoked list and its order |
| `CapabilityTree.AuthorityCapabilityTree.RevokeStamp` | src/kyriotes_csk2/capability_tree.rs:129-135 | Revoking in place adds exactly the stamp to the set, keeps it sorted and keeps the leaves |
| `CapabilityTree.AuthorityCapabilityTree.NonRevocationWitness` | src/kyriotes_csk2/capability_tree.rs:151-187 | The object method answers exactly for absent stamps, and what it answers verifies against the root and count |
| `CapabilityTree.AuthorityCapabilityTree.InclusionProofOf` | src/kyriotes_csk2/capability_tree.rs:252-292 | The proof is the sibling path of the first occurrence of the leaf, or none |
| `TransparencyLog.NonEquivocation` | src/kyriotes_csk2/transparency.rs:109-143 | Two states for one authority and epoch that verify against roots the log had at any two moments of any run agree on both roots and the revocation count |
| `TransparencyLog.CommittedStaysProvable` | src/kyriotes_csk2/transparency.rs:145-161 | A committed state is provable at every later moment of every run, committing it again changes nothing, and a different state for its key is refused from then on |
| `TransparencyLog.RunInvariant` | src/kyriotes_csk2/transparency.rs:109-143 | After every run there is at most one entry per authority and epoch, and every entry was made by a commit of the run |
| `TransparencyLog.RunAppends` | src/kyriotes_csk2/transparency.rs:109-172 | Entries of any moment are kept in place at every later moment; only chain hashes may be filled in |
| `TransparencyLog.AcceptedIsLogged` | src/kyriotes_csk2/transparency.rs:327-347 | A state accepted against the root of a run sits in the log under its own key |
| `TransparencyLog.ProvableIff` | src/kyriotes_csk2/transparency.rs:145-161 | The log has a proof for a state if and only if it recorded that state |
| `TransparencyLog.ChainHashIsLastRegistered` | src/kyriotes_csk2/transparency.rs:109-172 | After every run the log hands out, for each authority and epoch, the hash registered last since its commit, whatever was done for other keys |
| `TransparencyLog.InMemoryTransparencyLog.CommitState` | src/kyriotes_csk2/transparency.rs:109-143 | The object method appends, repeats or refuses as specified and keeps every earlier entry |
| `TransparencyLog.InMemoryTransparencyLog.RegisterChainHash` | src/kyriotes_csk2/transparency.rs:168-172 | The object method fills in one chain hash and keeps every entry otherwise |
| `ChainHash.ChainBindsHistory` | src/kyriotes_csk2/transparency.rs:208-228 | Two chains from genesis with the same final hash have the same length and the same links |
| `ChainHash.OnlyGenesisForgets` | src/kyriotes_csk2/transparency.rs:217-221 | A link hides the hash before it if and only if it is a genesis link |
| `Merkle.PathRebuildsRoot` | src/kyriotes_csk2/transparency.rs:265-325 | Folding the generated path of any leaf gives the root, and the path has the tree depth, for every tree size |
| `Merkle.FoldFindsLeaf` | src/kyriotes_csk2/transparency.rs:307-325 | A value that is not a node and whose path, of any length and index, folds to the root is the leaf at the low bits of the index, and the path has the tree depth |
| `Merkle.FoldFindsPosition` | src/kyriotes_csk2/transparency.rs:307-325 | For arbitrary leaves, a path of the tree depth starts at the leaf in the indexed position or at the padding beside an odd last leaf |
| `Merkle.RootInjective` | src/kyriotes_csk2/transparency.rs:180-255 | Trees of any two sizes with equal roots have equal leaves, when leaves are not nodes |
| `Merkle.RootInjectiveForEqualSize` | src/kyriotes_csk2/transparency.rs:230-255 | Trees of equal size with equal roots have equal leaves, whatever the leaves are |
| `Merkle.MerkleRoot` | src/kyriotes_csk2/transparency.rs:230-255 | The level-by-level loop computes the recursive root of the padded tree |
| `Merkle.ProofForIndex` | src/kyriotes_csk2/transparency.rs:265-305 | The level-by-level loop emits the recursive sibling path, and nothing for an index out of range |
| `Merkle.RootFromProof` | src/kyriotes_csk2/transparency.rs:307-325 | The loop over siblings computes the recursive fold |
| `Model.CapabilityLeafInputInjective` | src/kyriotes_csk2/model.rs:195-212 | The hashed encoding of a capability determines it |
| `Model.StampInputInjective` | src/kyriotes_csk2/model.rs:214-226 | The hashed encoding of a stamp determines the leaf and the authority |
| `Model.TransparencyLeafInputInjective` | src/kyriotes_csk2/model.rs:228-240 | The hashed encoding of a state determines its key, both roots and the revocation count |
| `Model.CapabilityLeafIsNotANode` | src/kyriotes_csk2/transparency.rs:191-197 | No capability leaf input can be read as a node input |
| `Model.TransparencyLeafIsNotANode` | src/kyriotes_csk2/model.rs:228-240 | No transparency leaf input can be read as a node input |
| `Tsig.TsigVerify` | src/kyriotes_csk2/tsig.rs:142-191 | The counting loop accepts if and only if the threshold is positive, at most the key count, and met by the key positions whose first submitted partial is valid |
| `Tsig.CodeMeetsDocumentedRuleIff` | src/kyriotes_csk2/tsig.rs:131-183 | The signers counted are among those the documented rule counts, and are all of them if and only if no signer submitted an invalid partial ahead of a valid one |
| `Tsig.BadThenGoodIsNotCounted` | src/kyriotes_csk2/tsig.rs:166-183 | The failing case made concrete: a bad partial before a good one of the same signer counts nobody |
| `Tsig.AcceptanceIsMonotone` | src/kyriotes_csk2/tsig.rs:142-191 | Appending partials never turns acceptance into rejection |
| `Tsig.DoubleVouchIff` | src/kyriotes_csk2/tsig.rs:142-191 | For two different epoch roots, some signature set and key list of given sizes is accepted for both if and only if the threshold is at most half of the positions that can sign |
| `Tsig.MajorityVouchesForOneRoot` | src/kyriotes_csk2/tsig.rs:142-191 | With a threshold above half of those positions, one signature set is accepted for at most one epoch root, repeated keys included |
| `Tsig.SignedQuorumIsAccepted` | src/kyriotes_csk2/tsig.rs:106-124 | Enough signers whose first partial is their own signature make a set that is accepted, whatever else is submitted |
| `Tsig.SigningMessageBinds` | src/kyriotes_csk2/tsig.rs:74-89 | A partial signature fixes all five signed fields |
| `Wire.DecodeIsExact` | src/encoding/wire.rs:169-256 | The decoder accepts bytes as an object if and only if the object is encodable, within the limits, and the bytes are its encoding |
| `Wire.TrailingBytesReject` | src/encoding/wire.rs:236-240 | Bytes after a complete object are always rejected |
| `Wire.AcceptanceIsMonotone` | src/encoding/wire.rs:81-114 | Looser limits give the same result for whatever tighter ones accept, and the three profiles are ordered |
| `Wire.Decode` | src/encoding/wire.rs:169-256 | Every refusal of the decoder is a parse error |
| `Wire.EncodeObject` | src/encoding/wire.rs:122-163 | The buffer-filling encoder with its two nested list loops computes the format |
| `Wire.DecodeObject` | src/encoding/wire.rs:169-256 | The cursor-advancing decoder with its two nested list loops computes the specification, errors included |
| `Formats.EncodingIsFlat` | src/encoding/wire.rs:122-163 | The encoding is the magic, header, payload and wrapper fields laid out flat in this order, stated apart from the reader |
| `Formats.LowByteFirst` | src/encoding/codec.rs:5-15 | Numbers are written least significant byte first |
| `Formats.CapabilityLayout` | src/kyriotes_csk2/model.rs:195-212 | What is hashed for a capability, field by field in order |
| `Formats.StampLayout` | src/kyriotes_csk2/model.rs:214-226 | What is hashed for a stamp |
| `Formats.TransparencyLeafLayout` | src/kyriotes_csk2/model.rs:228-240 | What is hashed for a transparency leaf, field by field in order |
| `Formats.ContextLayout` | src/kyriotes_csk2/model.rs:242-266 | What is hashed for a context, field by field in order |
| `Formats.NodeLayout` | src/kyriotes_csk2/transparency.rs:191-197 | A node hashes its tag, its left child and its right child |
| `Formats.ChainLayout` | src/kyriotes_csk2/transparency.rs:208-228 | What is hashed for a link of the epoch chain |
| `Formats.SecretLayout` | src/kyriotes_csk2/kem.rs:99-113 | What the shared secret is hashed from, in both modes |
| `Formats.WrappingKeyLayout` | src/kyriotes_csk2/engine.rs:166-194 | Salt, keying material and info of the wrapping key, field by field in order |
| `Formats.AuthorityAadLayout` | src/kyriotes_csk2/engine.rs:270-294 | The associated data of a wrapper, field by field in order |
| `Formats.PayloadAadLayout` | src/kyriotes_csk2/engine.rs:296-304 | The associated data of a payload, field by field in order |
| `Formats.SignedLayouts` | src/kyriotes_csk2/authority.rs:46-102 | What certificates, issuance proofs and epoch roots sign, field by field in order |
| `Formats.StateMessageLayout` | src/kyriotes_csk2/verify.rs:365-376 | What a legacy state signature signs, field by field in order |
| `Formats.SignedDomainsAreSeparate` | src/kyriotes_csk2/authority.rs:46-102 | No message signed for one of the five purposes is a message of another |
| `Formats.TreeDomainsAreSeparate` | src/kyriotes_csk2/model.rs:195-240 | Capability leaves, stamps, transparency leaves and nodes are never the same string |
| `Formats.AadDomainsAreSeparate` | src/kyriotes_csk2/engine.rs:270-304 | Wrapper and payload associated data are never the same string |
| `Text.ValidUtf8Iff` | src/encoding/codec.rs:146-153 | The decoder takes bytes as text if and only if they encode some sequence of Unicode scalar values |
| `Policy.ContainsAllIff` | src/core/rights.rs:25-27 | A mask contains another if and only if each of the sixteen rights set in the other is set in it |
| `Policy.DelegateIsBitFive` | src/core/rights.rs:10 | The delegate right is bit five and nothing else |
| `Policy.AgreesWithDocumentationIff` | src/core/temporal.rs:10-32 | Over all epochs the two gates admit what the specification sheet says if and only if a historical policy names the seal epoch, for every window, for no reseal policy, and for the current policy only at the last epoch there is |
| `Policy.AdmitsExactly` | src/core/temporal.rs:10-32 | Which epochs each of the four policies admits, by both gates together |
| `Policy.AgreesAtEpochIff` | docs/Kyriotes-CSK2-Spec-Sheet.md:285-296 | Epoch by epoch, where the current and reseal policies differ from the specification sheet |
| `Codec.FramingIsExact` | src/encoding/codec.rs:17-20 | A length-prefixed field is read back if and only if its length is below 2^32 and within the limit; at exactly 2^32 it reads as empty |
| `Codec.FieldsAreCanonical` | src/encoding/codec.rs:93-153 | Whatever a field reader accepts is exactly what the field writer produces |
| `Codec.PoliciesAreCanonical` | src/encoding/codec.rs:159-183 | Whatever the temporal policy reader accepts is exactly what the writer produces |
| `Codec.PutTemporalPolicy` | src/encoding/codec.rs:30-49 | A written policy is read back and leaves exactly what follows it |
| `Codec.NumbersAreCanonical` | src/encoding/codec.rs:51-79 | Whatever a number reader accepts is exactly what the number writer produces |
| `Buffers.Writer.WriteBytes` | src/encoding/codec.rs:17-20 | Extending the buffer writes exactly the framed field |
| `Buffers.Writer.WritePolicy` | src/encoding/codec.rs:30-49 | Extending the buffer writes exactly the tagged policy |
| `Buffers.Reader.ReadBytes` | src/encoding/codec.rs:93-112 | The cursor moves past the field on success, for the same inputs and with the same value as the format says |
| `Buffers.Reader.ReadFixed` | src/encoding/codec.rs:127-139 | A fixed field is accepted only with its exact length prefix |
| `Buffers.Reader.ReadText` | src/encoding/codec.rs:146-153 | A text field is accepted only when it is well-formed UTF-8 |
| `Buffers.Reader.ReadPolicy` | src/encoding/codec.rs:159-183 | The cursor-advancing policy reader follows the format, unknown tags included |

## Left out

- NonRevocationSound: assumes bound paths of the tree's depth, which the code does not check; SoundWithoutDepthIff says when that can be dropped.
- RevocationIsPermanent: rejects proofs whose bound paths have the tree's depth, for the same reason, under states that publish the tree's list, because RotatedStateAcceptsIff shows that other states decide by their own list.
- RevokedCapabilityNeverOpens: carries the same depth hypothesis.
- AcceptanceIsMonotone: in Tsig, the 32-bit counter of valid partials is unbounded, since it never passes the number of keys.
- FieldBinding: is about objects that keep the payload ciphertext and the selected wrapped key; an object with fresh ones is a different seal.
- ChainBindsHistory: is about chains that meet epoch 0 first and only first, since OnlyGenesisForgets shows that an epoch 0 link forgets what came before it.
- LifecycleCompleteness: upkeep excludes new issuance; IssuanceOutlivesRunIff covers runs that issue, and says exactly when they retire earlier proofs.
- The capability and threshold-set byte formats, which repeat the codec pattern with fewer fields.
- The insides of SHA-256, Ed25519, ChaCha20-Poly1305, HKDF, X25519 and ML-KEM, random number generation and zeroising of keys.
- The asynchronous log interface, the stub verifier, compromise notices and the convenience wrappers that supply default limits or verifiers.
- Choosing a limit profile from an environment variable.
- That HKDF has no collisions: where a theorem rests on the wrapping key it names a finite set of queries without one, as it does for the hash.
- The seal, rewrap and reseal helpers that also commit to the log: each is a commit followed by a modelled operation.
- Whether revoking a parent affects capabilities delegated from it: validation does not look at ancestors.
- Reason strings inside errors, and the binary search behind `partition_point`, which is modelled by what it returns.
