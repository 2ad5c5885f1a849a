/** What the decoder's text check means: UTF-8 as the encoding of Unicode scalar values (RFC 3629, section 3). */
module Text {
  import opened Octets
  import opened Codec

  /** A Unicode scalar value: a code point that is not a surrogate. */
  type Scalar = c: nat | c <= 0x10FFFF && !(0xD800 <= c <= 0xDFFF)

  function EncodeScalar(c: Scalar): Bytes {
    if c < 0x80 then [c]
    else if c < 0x800 then [0xC0 + c / 0x40, 0x80 + c % 0x40]
    else if c < 0x1_0000 then [0xE0 + c / 0x1000, 0x80 + c / 0x40 % 0x40, 0x80 + c % 0x40]
    else [0xF0 + c / 0x4_0000, 0x80 + c / 0x1000 % 0x40, 0x80 + c / 0x40 % 0x40, 0x80 + c % 0x40]
  }

  function EncodeText(cs: seq<Scalar>): Bytes {
    if cs == [] then [] else EncodeScalar(cs[0]) + EncodeText(cs[1..])
  }

  /** One well-formed sequence of bytes, by the table in section 4 of RFC 3629. */
  predicate OneScalar(x: Bytes) {
    || (|x| == 1 && x[0] <= 0x7F)
    || (|x| == 2 && 0xC2 <= x[0] <= 0xDF && Tail(x[1]))
    || (|x| == 3 && 0xE0 <= x[0] <= 0xEF && Tail(x[1]) && Tail(x[2])
        && (x[0] == 0xE0 ==> x[1] >= 0xA0) && (x[0] == 0xED ==> x[1] <= 0x9F))
    || (|x| == 4 && 0xF0 <= x[0] <= 0xF4 && Tail(x[1]) && Tail(x[2]) && Tail(x[3])
        && (x[0] == 0xF0 ==> x[1] >= 0x90) && (x[0] == 0xF4 ==> x[1] <= 0x8F))
  }

  lemma ScalarShape(c: Scalar)
    ensures OneScalar(EncodeScalar(c))
  {
  }

  lemma ScalarIsValid(c: Scalar, rest: Bytes)
    ensures ValidUtf8(EncodeScalar(c) + rest) <==> ValidUtf8(rest)
  {
    hide EncodeScalar;
    ScalarShape(c);
    var x, b := EncodeScalar(c), EncodeScalar(c) + rest;
    assert b[|x|..] == rest;
    assert forall i :: 0 <= i < |x| ==> b[i] == x[i];
  }

  lemma {:induction false} TextIsValid(cs: seq<Scalar>)
    ensures ValidUtf8(EncodeText(cs))
  {
    if cs != [] {
      TextIsValid(cs[1..]);
      ScalarIsValid(cs[0], EncodeText(cs[1..]));
    }
  }

  /** The scalar value at the front of valid text. */
  lemma FirstScalar(b: Bytes) returns (c: Scalar)
    requires b != [] && ValidUtf8(b)
    ensures EncodeScalar(c) <= b && ValidUtf8(b[|EncodeScalar(c)|..])
  {
    if b[0] <= 0x7F {
      c := b[0];
    } else if b[0] <= 0xDF {
      c := TwoBytes(b[0], b[1]);
    } else if b[0] <= 0xEF {
      c := ThreeBytes(b[0], b[1], b[2]);
    } else {
      c := FourBytes(b[0], b[1], b[2], b[3]);
    }
    assert EncodeScalar(c) == b[..|EncodeScalar(c)|];
  }

  lemma TwoBytes(a: Byte, b: Byte) returns (c: Scalar)
    requires 0xC2 <= a <= 0xDF && Tail(b)
    ensures EncodeScalar(c) == [a, b]
  {
    c := (a - 0xC0) * 0x40 + (b - 0x80);
  }

  lemma ThreeBytes(a: Byte, b: Byte, d: Byte) returns (c: Scalar)
    requires 0xE0 <= a <= 0xEF && Tail(b) && Tail(d)
    requires (a == 0xE0 ==> b >= 0xA0) && (a == 0xED ==> b <= 0x9F)
    ensures EncodeScalar(c) == [a, b, d]
  {
    c := (a - 0xE0) * 0x1000 + (b - 0x80) * 0x40 + (d - 0x80);
    assert c / 0x40 == (a - 0xE0) * 0x40 + (b - 0x80);
  }

  lemma FourBytes(a: Byte, b: Byte, d: Byte, e: Byte) returns (c: Scalar)
    requires 0xF0 <= a <= 0xF4 && Tail(b) && Tail(d) && Tail(e)
    requires (a == 0xF0 ==> b >= 0x90) && (a == 0xF4 ==> b <= 0x8F)
    ensures EncodeScalar(c) == [a, b, d, e]
  {
    c := (a - 0xF0) * 0x4_0000 + (b - 0x80) * 0x1000 + (d - 0x80) * 0x40 + (e - 0x80);
    assert c / 0x40 == (a - 0xF0) * 0x1000 + (b - 0x80) * 0x40 + (d - 0x80);
    assert c / 0x1000 == (a - 0xF0) * 0x40 + (b - 0x80);
  }

  lemma {:induction false} ValidIsText(b: Bytes) returns (cs: seq<Scalar>)
    requires ValidUtf8(b)
    ensures EncodeText(cs) == b
    decreases |b|
  {
    if b == [] {
      cs := [];
    } else {
      var c := FirstScalar(b);
      var rest := ValidIsText(b[|EncodeScalar(c)|..]);
      cs := [c] + rest;
      assert cs[1..] == rest;
    }
  }

  /** The decoder takes bytes as text exactly when they encode some sequence of scalar values. */
  lemma ValidUtf8Iff(b: Bytes)
    ensures ValidUtf8(b) <==> exists cs :: EncodeText(cs) == b
  {
    if ValidUtf8(b) {
      var cs := ValidIsText(b);
    }
    forall cs | EncodeText(cs) == b
      ensures ValidUtf8(b)
    {
      TextIsValid(cs);
    }
  }
}
