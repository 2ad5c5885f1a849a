/**
  The cryptographic primitives, as a record of arbitrary functions, and the ideal
  properties that some theorems assume of them. Random values are arguments.
 */
module Crypto {
  import opened Octets
  import opened Merkle

  datatype Suite = Suite(
    hash: Hash,
    // signatures: public key of a seed, signature of a seed, verification
    signingPk: Bytes32 -> Bytes32,
    sign: (Bytes32, Bytes) -> Bytes64,
    verifySig: (Bytes32, Bytes, Bytes64) -> bool,
    // authenticated encryption: key, nonce, associated data, then message or ciphertext
    encrypt: (Bytes32, Bytes12, Bytes, Bytes) -> Bytes,
    decrypt: (Bytes32, Bytes12, Bytes, Bytes) -> Option<Bytes>,
    // key derivation: salt, input keying material, info
    hkdf: (Bytes32, Bytes, Bytes) -> Bytes32,
    // Diffie-Hellman: public value of a secret, shared secret
    dhPk: Bytes32 -> Bytes32,
    dh: (Bytes32, Bytes32) -> Bytes32,
    // post-quantum KEM: key of a seed, encapsulation (None for a malformed key), decapsulation
    kemEk: Bytes64 -> Bytes,
    kemEncaps: (Bytes, Bytes32) -> Option<(Bytes, Bytes32)>,
    kemDecaps: (Bytes64, Bytes) -> Bytes32)

  const KEM_EK_BYTES: nat := 1184
  const KEM_CT_BYTES: nat := 1088

  ghost predicate SignaturesVerify(c: Suite) {
    forall sk, m :: c.verifySig(c.signingPk(sk), m, c.sign(sk, m))
  }

  /** Among the messages of `M`, one signature verifies under one key for at most one message. */
  ghost predicate SignaturesBind(c: Suite, M: set<Bytes>) {
    forall pk, m, m', sig :: m in M && m' in M && c.verifySig(pk, m, sig) && c.verifySig(pk, m', sig) ==> m == m'
  }

  /** Among the queries of `K`, key derivation has no collision. */
  ghost predicate KdfBinds(c: Suite, K: set<(Bytes32, Bytes, Bytes)>) {
    forall x, y :: x in K && y in K && c.hkdf(x.0, x.1, x.2) == c.hkdf(y.0, y.1, y.2) ==> x == y
  }

  ghost predicate AeadDecrypts(c: Suite) {
    forall k, n, a, m :: c.decrypt(k, n, a, c.encrypt(k, n, a, m)) == Some(m)
  }

  /** A ciphertext opens only under the key, nonce and associated data it was made with. */
  ghost predicate AeadBinds(c: Suite) {
    forall k, n, a, m, k', n', a' | c.decrypt(k', n', a', c.encrypt(k, n, a, m)).Some? ::
      k' == k && n' == n && a' == a && c.decrypt(k', n', a', c.encrypt(k, n, a, m)).value == m
  }

  ghost predicate KemsAgree(c: Suite) {
    && (forall a, b :: c.dh(a, c.dhPk(b)) == c.dh(b, c.dhPk(a)))
    && (forall seed :: |c.kemEk(seed)| == KEM_EK_BYTES)
    && (forall seed, coins | c.kemEncaps(c.kemEk(seed), coins).Some? ::
      && |c.kemEncaps(c.kemEk(seed), coins).value.0| == KEM_CT_BYTES
      && c.kemDecaps(seed, c.kemEncaps(c.kemEk(seed), coins).value.0) == c.kemEncaps(c.kemEk(seed), coins).value.1)
  }
}
