/**
  The primitive codec of src/encoding/codec.rs.

  Each `Put` function is written in continuation style: `PutBytes(b, tail)` is the
  encoding of `b` followed by `tail`. Its contract says that the matching `Take`
  function reads the value back and leaves exactly `tail`, so encoders that nest
  these functions are inverted, and shown injective, field by field.
 */
module Codec {
  import opened Octets
  import opened Policy

  // ----- writing

  function PutU16(v: u16, tail: Bytes): (b: Bytes)
    ensures TakeU16(b) == Ok((v, tail))
  {
    LittleEndianRoundTrip(v, 2);
    Pow256Values();
    var b := LittleEndian(v, 2) + tail;
    assert b[..2] == LittleEndian(v, 2) && b[2..] == tail;
    b
  }

  function PutU32(v: u32, tail: Bytes): (b: Bytes)
    ensures TakeU32(b) == Ok((v, tail))
  {
    LittleEndianRoundTrip(v, 4);
    Pow256Values();
    var b := LittleEndian(v, 4) + tail;
    assert b[..4] == LittleEndian(v, 4) && b[4..] == tail;
    b
  }

  function PutU64(v: u64, tail: Bytes): (b: Bytes)
    ensures TakeU64(b) == Ok((v, tail))
  {
    LittleEndianRoundTrip(v, 8);
    Pow256Values();
    var b := LittleEndian(v, 8) + tail;
    assert b[..8] == LittleEndian(v, 8) && b[8..] == tail;
    b
  }

  /** A length-prefixed field. The length is cast with `as u32`, so it wraps at 2^32. */
  function PutBytes(x: Bytes, tail: Bytes): (b: Bytes)
    ensures forall maxLen: nat :: |x| < U32_SPAN && |x| <= maxLen ==> TakeBytesLimited(b, maxLen) == Ok((x, tail))
    ensures |x| < U32_SPAN ==> TakeFixed(b, |x|) == Ok((x, tail)) && TakeBytesLimited(b, U32_SPAN) == Ok((x, tail))
    ensures forall maxLen: nat ::
      |x| < U32_SPAN && |x| <= maxLen && ValidUtf8(x) ==> TakeText(b, maxLen) == Ok((x, tail))
  {
    var rest := x + tail;
    assert rest[..|x|] == x && rest[|x|..] == tail;
    PutU32(Low32(|x|), rest)
  }

  function PutRights(r: Rights, tail: Bytes): (b: Bytes)
    ensures TakeRights(b) == Ok((r, tail))
  {
    PutU16(r.bits, tail)
  }

  function PutTemporalPolicy(p: TemporalPolicy, tail: Bytes): (b: Bytes)
    ensures TakeTemporalPolicy(b) == Ok((p, tail))
  {
    match p
    case Historical(e) => PutByte(0x01, PutU64(e, tail))
    case Current => PutByte(0x02, tail)
    case Window(start, end) => PutByte(0x03, PutU64(start, PutU64(end, tail)))
    case ResealRequired(after) => PutByte(0x04, PutU64(after, tail))
  }

  function PutByte(v: Byte, tail: Bytes): (b: Bytes)
    ensures b != [] && b[0] == v && b[1..] == tail
  {
    [v] + tail
  }

  // ----- reading: each function returns the value and the unread remainder

  function TakeU16(b: Bytes): (r: Result<(u16, Bytes)>)
    ensures r.Ok? ==> b == LittleEndian(r.value.0, 2) + r.value.1
    ensures r.Err? ==> r.error == ParseFailure
  {
    if |b| < 2 then Err(ParseFailure)
    else
      FromLittleEndianBound(b[..2]);
      Pow256Values();
      FromLittleEndianRoundTrip(b[..2]);
      Ok((FromLittleEndian(b[..2]), b[2..]))
  }

  function TakeU32(b: Bytes): (r: Result<(u32, Bytes)>)
    ensures r.Ok? ==> b == LittleEndian(r.value.0, 4) + r.value.1
    ensures r.Err? ==> r.error == ParseFailure
  {
    if |b| < 4 then Err(ParseFailure)
    else
      FromLittleEndianBound(b[..4]);
      Pow256Values();
      FromLittleEndianRoundTrip(b[..4]);
      Ok((FromLittleEndian(b[..4]), b[4..]))
  }

  function TakeU64(b: Bytes): (r: Result<(u64, Bytes)>)
    ensures r.Ok? ==> b == LittleEndian(r.value.0, 8) + r.value.1
    ensures r.Err? ==> r.error == ParseFailure
  {
    if |b| < 8 then Err(ParseFailure)
    else
      FromLittleEndianBound(b[..8]);
      Pow256Values();
      FromLittleEndianRoundTrip(b[..8]);
      Ok((FromLittleEndian(b[..8]), b[8..]))
  }

  function TakeBytesLimited(b: Bytes, maxLen: nat): (r: Result<(Bytes, Bytes)>)
    ensures r.Ok? ==> b == LittleEndian(|r.value.0|, 4) + (r.value.0 + r.value.1)
    ensures r.Ok? ==> |r.value.0| <= maxLen && |r.value.0| < U32_SPAN
    ensures r.Err? ==> r.error == ParseFailure
  {
    var (len, rest) :- TakeU32(b);
    if len > maxLen then Err(ParseFailure)
    else if |rest| < len then Err(ParseFailure)
    else
      assert rest == rest[..len] + rest[len..];
      Ok((rest[..len], rest[len..]))
  }

  /** A fixed-size field: the length prefix must be exactly `n`. */
  function TakeFixed(b: Bytes, n: nat): (r: Result<(Bytes, Bytes)>)
    ensures r.Ok? ==> |r.value.0| == n
    ensures r.Err? ==> r.error == ParseFailure
  {
    var (x, rest) :- TakeBytesLimited(b, n);
    if |x| != n then Err(ParseFailure) else Ok((x, rest))
  }

  function TakeText(b: Bytes, maxLen: nat): (r: Result<(Bytes, Bytes)>)
    ensures r.Ok? ==> ValidUtf8(r.value.0) && |r.value.0| <= maxLen && |r.value.0| < U32_SPAN
    ensures r.Err? ==> r.error == ParseFailure
  {
    var (x, rest) :- TakeBytesLimited(b, maxLen);
    if ValidUtf8(x) then Ok((x, rest)) else Err(ParseFailure)
  }

  /** Well-formed UTF-8, section 4 of RFC 3629. */
  predicate ValidUtf8(b: Bytes)
    decreases |b|
  {
    if b == [] then true
    else if b[0] <= 0x7F then ValidUtf8(b[1..])
    else if 0xC2 <= b[0] <= 0xDF then |b| >= 2 && Tail(b[1]) && ValidUtf8(b[2..])
    else if 0xE0 <= b[0] <= 0xEF then
      && |b| >= 3 && Tail(b[1]) && Tail(b[2])
      && (b[0] == 0xE0 ==> b[1] >= 0xA0) && (b[0] == 0xED ==> b[1] <= 0x9F)
      && ValidUtf8(b[3..])
    else
      && 0xF0 <= b[0] <= 0xF4 && |b| >= 4 && Tail(b[1]) && Tail(b[2]) && Tail(b[3])
      && (b[0] == 0xF0 ==> b[1] >= 0x90) && (b[0] == 0xF4 ==> b[1] <= 0x8F)
      && ValidUtf8(b[4..])
  }

  predicate Tail(b: Byte) {
    0x80 <= b <= 0xBF
  }

  function TakeRights(b: Bytes): (r: Result<(Rights, Bytes)>)
    ensures r.Err? ==> r.error == ParseFailure
  {
    var (bits, rest) :- TakeU16(b);
    Ok((Rights(bits), rest))
  }

  function TakeTemporalPolicy(b: Bytes): (r: Result<(TemporalPolicy, Bytes)>)
    ensures r.Err? ==> r.error == ParseFailure
  {
    if |b| < 1 then Err(ParseFailure)
    else
      var rest := b[1..];
      if b[0] == 0x01 then
        var (e, rest1) :- TakeU64(rest);
        Ok((Historical(e), rest1))
      else if b[0] == 0x02 then
        Ok((Current, rest))
      else if b[0] == 0x03 then
        var (start, rest1) :- TakeU64(rest);
        var (end, rest2) :- TakeU64(rest1);
        Ok((Window(start, end), rest2))
      else if b[0] == 0x04 then
        var (after, rest1) :- TakeU64(rest);
        Ok((ResealRequired(after), rest1))
      else
        Err(ParseFailure)
  }

  // ----- canonicity: whatever a reader accepts is exactly what the writer produces

  lemma NumbersAreCanonical(b: Bytes)
    ensures TakeU16(b).Ok? ==> b == PutU16(TakeU16(b).value.0, TakeU16(b).value.1)
    ensures TakeU32(b).Ok? ==> b == PutU32(TakeU32(b).value.0, TakeU32(b).value.1)
    ensures TakeU64(b).Ok? ==> b == PutU64(TakeU64(b).value.0, TakeU64(b).value.1)
    ensures TakeRights(b).Ok? ==> b == PutRights(TakeRights(b).value.0, TakeRights(b).value.1)
  {
  }

  lemma FieldsAreCanonical(b: Bytes, n: nat)
    ensures var r := TakeBytesLimited(b, n); r.Ok? ==> b == PutBytes(r.value.0, r.value.1)
    ensures var r := TakeFixed(b, n); r.Ok? ==> b == PutBytes(r.value.0, r.value.1)
    ensures var r := TakeText(b, n); r.Ok? ==> b == PutBytes(r.value.0, r.value.1)
  {
  }

  lemma PoliciesAreCanonical(b: Bytes)
    ensures var r := TakeTemporalPolicy(b); r.Ok? ==> b == PutTemporalPolicy(r.value.0, r.value.1)
  {
    if b != [] {
      NumbersAreCanonical(b[1..]);
      if TakeU64(b[1..]).Ok? {
        NumbersAreCanonical(TakeU64(b[1..]).value.1);
      }
      assert b == [b[0]] + b[1..];
    }
  }

  /** All of the above at once, for decoders that chain many reads. */
  lemma ReadsAreCanonical()
    ensures forall b {:trigger TakeU16(b)} :: TakeU16(b).Ok? ==> b == PutU16(TakeU16(b).value.0, TakeU16(b).value.1)
    ensures forall b {:trigger TakeU32(b)} :: TakeU32(b).Ok? ==> b == PutU32(TakeU32(b).value.0, TakeU32(b).value.1)
    ensures forall b {:trigger TakeU64(b)} :: TakeU64(b).Ok? ==> b == PutU64(TakeU64(b).value.0, TakeU64(b).value.1)
    ensures forall b {:trigger TakeRights(b)} ::
      TakeRights(b).Ok? ==> b == PutRights(TakeRights(b).value.0, TakeRights(b).value.1)
    ensures forall b, n {:trigger TakeBytesLimited(b, n)} :: TakeBytesLimited(b, n).Ok? ==>
      b == PutBytes(TakeBytesLimited(b, n).value.0, TakeBytesLimited(b, n).value.1)
    ensures forall b, n {:trigger TakeFixed(b, n)} :: TakeFixed(b, n).Ok? ==>
      b == PutBytes(TakeFixed(b, n).value.0, TakeFixed(b, n).value.1)
    ensures forall b, n {:trigger TakeText(b, n)} :: TakeText(b, n).Ok? ==>
      b == PutBytes(TakeText(b, n).value.0, TakeText(b, n).value.1)
    ensures forall b {:trigger TakeTemporalPolicy(b)} :: TakeTemporalPolicy(b).Ok? ==>
      b == PutTemporalPolicy(TakeTemporalPolicy(b).value.0, TakeTemporalPolicy(b).value.1)
  {
    forall b: Bytes
      ensures TakeU16(b).Ok? ==> b == PutU16(TakeU16(b).value.0, TakeU16(b).value.1)
      ensures TakeU32(b).Ok? ==> b == PutU32(TakeU32(b).value.0, TakeU32(b).value.1)
      ensures TakeU64(b).Ok? ==> b == PutU64(TakeU64(b).value.0, TakeU64(b).value.1)
      ensures TakeRights(b).Ok? ==> b == PutRights(TakeRights(b).value.0, TakeRights(b).value.1)
      ensures TakeTemporalPolicy(b).Ok? ==>
        b == PutTemporalPolicy(TakeTemporalPolicy(b).value.0, TakeTemporalPolicy(b).value.1)
    {
      NumbersAreCanonical(b);
      PoliciesAreCanonical(b);
    }
    forall b: Bytes, n: nat
      ensures TakeBytesLimited(b, n).Ok? ==>
        b == PutBytes(TakeBytesLimited(b, n).value.0, TakeBytesLimited(b, n).value.1)
      ensures TakeFixed(b, n).Ok? ==> b == PutBytes(TakeFixed(b, n).value.0, TakeFixed(b, n).value.1)
      ensures TakeText(b, n).Ok? ==> b == PutBytes(TakeText(b, n).value.0, TakeText(b, n).value.1)
    {
      FieldsAreCanonical(b, n);
    }
  }

  lemma PolicyAppends(p: TemporalPolicy, t: Bytes, e: Bytes)
    ensures PutTemporalPolicy(p, t) + e == PutTemporalPolicy(p, t + e)
  {
  }

  /** Writing more after a field only extends its tail. */
  lemma WritesAppend(e: Bytes)
    ensures forall v, t {:trigger PutU16(v, t) + e} :: PutU16(v, t) + e == PutU16(v, t + e)
    ensures forall v, t {:trigger PutU32(v, t) + e} :: PutU32(v, t) + e == PutU32(v, t + e)
    ensures forall v, t {:trigger PutU64(v, t) + e} :: PutU64(v, t) + e == PutU64(v, t + e)
    ensures forall x, t {:trigger PutBytes(x, t) + e} :: PutBytes(x, t) + e == PutBytes(x, t + e)
    ensures forall r, t {:trigger PutRights(r, t) + e} :: PutRights(r, t) + e == PutRights(r, t + e)
    ensures forall p, t {:trigger PutTemporalPolicy(p, t) + e} ::
      PutTemporalPolicy(p, t) + e == PutTemporalPolicy(p, t + e)
  {
    forall x: Bytes, t: Bytes
      ensures PutBytes(x, t) + e == PutBytes(x, t + e)
    {
      assert (x + t) + e == x + (t + e);
    }
    forall p: TemporalPolicy, t: Bytes
      ensures PutTemporalPolicy(p, t) + e == PutTemporalPolicy(p, t + e)
    {
      PolicyAppends(p, t, e);
    }
  }

  /** A field survives framing if and only if its length fits the 32-bit prefix and the reader's limit. */
  lemma FramingIsExact(x: Bytes, tail: Bytes, maxLen: nat)
    ensures TakeBytesLimited(PutBytes(x, tail), maxLen) == Ok((x, tail)) <==> |x| < U32_SPAN && |x| <= maxLen
    ensures |x| == U32_SPAN ==> TakeBytesLimited(PutBytes(x, tail), maxLen) == Ok(([], x + tail))
  {
    if |x| == U32_SPAN {
      assert TakeU32(PutBytes(x, tail)) == Ok((0, x + tail));
    }
  }
}
