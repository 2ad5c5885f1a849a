/**
  Bytes, fixed-size byte arrays, machine integers and the error type that every
  other module shares (src/core/error.rs).
 */
module Octets {

  type Byte = b: int | 0 <= b < 0x100
  type Bytes = seq<Byte>
  type Bytes12 = b: Bytes | |b| == 12 witness seq(12, _ => 0)
  type Bytes16 = b: Bytes | |b| == 16 witness seq(16, _ => 0)
  type Bytes32 = b: Bytes | |b| == 32 witness seq(32, _ => 0)
  type Bytes64 = b: Bytes | |b| == 64 witness seq(64, _ => 0)

  type u16 = v: int | 0 <= v < 0x1_0000
  type u32 = v: int | 0 <= v < 0x1_0000_0000
  type u64 = v: int | 0 <= v < 0x1_0000_0000_0000_0000

  const U32_SPAN: nat := 0x1_0000_0000
  const U64_SPAN: nat := 0x1_0000_0000_0000_0000
  const U64_MAX: u64 := 0xFFFF_FFFF_FFFF_FFFF

  /** The all-zero array: the root of an empty tree, and "no parent". */
  const ZERO: Bytes32 := Repeat(0, 32)

  function Repeat(v: Byte, n: nat): (b: Bytes)
    ensures |b| == n && forall i :: 0 <= i < n ==> b[i] == v
  {
    seq(n, _ => v)
  }

  /** The error classes of the crate; the human-readable reason strings are not modelled. */
  datatype Error =
    | InvalidCapability
    | TemporalRejected
    | AuthorityMismatch
    | MissingWrapper
    | CryptoFailure
    | ParseFailure

  datatype Option<+T> = None | Some(value: T)

  datatype Result<+T> = Ok(value: T) | Err(error: Error) {
    predicate IsFailure() {
      Err?
    }

    function PropagateFailure<U>(): Result<U>
      requires Err?
    {
      Err(error)
    }

    function Extract(): T
      requires Ok?
    {
      value
    }
  }

  /** A length or position as the `u64` that carries it; every real vector length fits. */
  function Low64(n: nat): (v: u64)
    ensures n < U64_SPAN ==> v == n
  {
    n % U64_SPAN
  }

  /** The `as u32` cast of a length, which wraps at 2^32. */
  function Low32(n: nat): (v: u32)
    ensures n < U32_SPAN ==> v == n
  {
    n % U32_SPAN
  }

  /** A string literal as its ASCII bytes (the `b"..."` tags of the source). */
  function Ascii(s: string): (b: Bytes)
    ensures |b| == |s|
  {
    seq(|s|, i requires 0 <= i < |s| => (s[i] as int) % 0x100)
  }

  // ----- little-endian integers

  function Pow256(n: nat): (p: nat)
    ensures p > 0
  {
    if n == 0 then 1 else 0x100 * Pow256(n - 1)
  }

  /** The `n` low-order bytes of `v`, least significant first; higher bytes are dropped. */
  function LittleEndian(v: nat, n: nat): (b: Bytes)
    ensures |b| == n
  {
    if n == 0 then [] else [v % 0x100] + LittleEndian(v / 0x100, n - 1)
  }

  function FromLittleEndian(b: Bytes): (v: nat)
  {
    if b == [] then 0 else b[0] + 0x100 * FromLittleEndian(b[1..])
  }

  lemma {:induction false} FromLittleEndianBound(b: Bytes)
    ensures FromLittleEndian(b) < Pow256(|b|)
  {
    if b != [] {
      FromLittleEndianBound(b[1..]);
    }
  }

  /** A value that fits in `n` bytes is read back from them. */
  lemma {:induction false} LittleEndianRoundTrip(v: nat, n: nat)
    ensures v < Pow256(n) ==> FromLittleEndian(LittleEndian(v, n)) == v
  {
    if n != 0 {
      LittleEndianRoundTrip(v / 0x100, n - 1);
      assert LittleEndian(v, n)[1..] == LittleEndian(v / 0x100, n - 1);
      assert v == 0x100 * (v / 0x100) + v % 0x100;
    }
  }

  lemma {:induction false} FromLittleEndianRoundTrip(b: Bytes)
    ensures LittleEndian(FromLittleEndian(b), |b|) == b
  {
    if b != [] {
      FromLittleEndianRoundTrip(b[1..]);
      var v := FromLittleEndian(b);
      assert v % 0x100 == b[0] && v / 0x100 == FromLittleEndian(b[1..]);
      assert [b[0]] + b[1..] == b;
    }
  }

  lemma LittleEndian64Injective(a: u64, b: u64)
    requires LittleEndian(a, 8) == LittleEndian(b, 8)
    ensures a == b
  {
    LittleEndianRoundTrip(a, 8);
    LittleEndianRoundTrip(b, 8);
    Pow256Values();
  }

  lemma {:induction false} Pow256Values()
    ensures Pow256(2) == 0x1_0000
    ensures Pow256(4) == U32_SPAN
    ensures Pow256(8) == U64_SPAN
  {
    assert Pow256(1) == 0x100 && Pow256(3) == 0x100 * Pow256(2);
    assert Pow256(5) == 0x100 * Pow256(4) && Pow256(6) == 0x100 * Pow256(5) && Pow256(7) == 0x100 * Pow256(6);
  }
}
