/**
  The mutable side of src/encoding/codec.rs: `put_*` extend a growing buffer and
  `take_*` advance a cursor. Each method is proved against the codec function of
  the same field.
 */
module Buffers {
  import opened Octets
  import opened Policy
  import opened Codec

  class Writer {
    var out: Bytes

    constructor ()
      ensures out == []
    {
      out := [];
    }

    method Extend(b: Bytes)
      modifies this
      ensures out == old(out) + b
    {
      out := out + b;
    }

    method WriteU16(v: u16)
      modifies this
      ensures forall t {:trigger PutU16(v, t)} :: out + t == old(out) + PutU16(v, t)
    {
      Extend(LittleEndian(v, 2));
      assert forall t :: out + t == old(out) + (LittleEndian(v, 2) + t);
    }

    method WriteU32(v: u32)
      modifies this
      ensures forall t {:trigger PutU32(v, t)} :: out + t == old(out) + PutU32(v, t)
    {
      Extend(LittleEndian(v, 4));
      assert forall t :: out + t == old(out) + (LittleEndian(v, 4) + t);
    }

    method WriteU64(v: u64)
      modifies this
      ensures forall t {:trigger PutU64(v, t)} :: out + t == old(out) + PutU64(v, t)
    {
      Extend(LittleEndian(v, 8));
      assert forall t :: out + t == old(out) + (LittleEndian(v, 8) + t);
    }

    method WriteBytes(x: Bytes)
      modifies this
      ensures forall t {:trigger PutBytes(x, t)} :: out + t == old(out) + PutBytes(x, t)
    {
      WriteU32(Low32(|x|));
      Extend(x);
      forall t
        ensures out + t == old(out) + PutBytes(x, t)
      {
        assert PutBytes(x, t) == PutU32(Low32(|x|), x + t);
      }
    }

    method WriteRights(r: Rights)
      modifies this
      ensures forall t {:trigger PutRights(r, t)} :: out + t == old(out) + PutRights(r, t)
    {
      WriteU16(r.bits);
      assert forall t {:trigger PutRights(r, t)} :: PutRights(r, t) == PutU16(r.bits, t);
    }

    method WriteByte(v: Byte)
      modifies this
      ensures forall t {:trigger PutByte(v, t)} :: out + t == old(out) + PutByte(v, t)
    {
      Extend([v]);
      assert forall t :: out + t == old(out) + ([v] + t);
    }

    method WritePolicy(p: TemporalPolicy)
      modifies this
      ensures forall t {:trigger PutTemporalPolicy(p, t)} :: out + t == old(out) + PutTemporalPolicy(p, t)
    {
      hide PutU64, PutByte, TakeU64, TakeTemporalPolicy;
      match p {
        case Historical(e) =>
          WriteByte(0x01);
          WriteU64(e);
        case Current =>
          WriteByte(0x02);
        case Window(start, end) =>
          WriteByte(0x03);
          WriteU64(start);
          WriteU64(end);
        case ResealRequired(after) =>
          WriteByte(0x04);
          WriteU64(after);
      }
    }
  }

  /** What a read must do, given what the codec function says of the unread bytes. */
  ghost predicate Reads<T(!new)>(spec: Result<(T, Bytes)>, r: Result<T>, rest: Bytes) {
    match spec
    case Ok((v, unread)) => r == Ok(v) && rest == unread
    case Err(e) => r == Err(e)
  }

  class Reader {
    const input: Bytes
    var cursor: nat

    ghost predicate Valid()
      reads this
    {
      cursor <= |input|
    }

    ghost function Rest(): Bytes
      requires Valid()
      reads this
    {
      input[cursor..]
    }

    constructor (input: Bytes)
      ensures Valid() && this.input == input && Rest() == input
    {
      this.input := input;
      cursor := 0;
    }

    method ReadU16() returns (r: Result<u16>)
      requires Valid()
      modifies this
      ensures Valid() && Reads(TakeU16(old(Rest())), r, Rest())
    {
      if |input| - cursor < 2 {
        return Err(ParseFailure);
      }
      var buf := input[cursor..cursor + 2];
      assert buf == Rest()[..2];
      NumberBounds(buf);
      cursor := cursor + 2;
      r := Ok(FromLittleEndian(buf));
    }

    method ReadU32() returns (r: Result<u32>)
      requires Valid()
      modifies this
      ensures Valid() && Reads(TakeU32(old(Rest())), r, Rest())
    {
      if |input| - cursor < 4 {
        return Err(ParseFailure);
      }
      var buf := input[cursor..cursor + 4];
      assert buf == Rest()[..4];
      NumberBounds(buf);
      cursor := cursor + 4;
      r := Ok(FromLittleEndian(buf));
    }

    method ReadU64() returns (r: Result<u64>)
      requires Valid()
      modifies this
      ensures Valid() && Reads(TakeU64(old(Rest())), r, Rest())
    {
      if |input| - cursor < 8 {
        return Err(ParseFailure);
      }
      var buf := input[cursor..cursor + 8];
      assert buf == Rest()[..8];
      NumberBounds(buf);
      cursor := cursor + 8;
      r := Ok(FromLittleEndian(buf));
    }

    method ReadBytes(maxLen: nat) returns (r: Result<Bytes>)
      requires Valid()
      modifies this
      ensures Valid() && Reads(TakeBytesLimited(old(Rest()), maxLen), r, Rest())
    {
      var len :- ReadU32();
      if len > maxLen {
        return Err(ParseFailure);
      }
      if |input| - cursor < len {
        return Err(ParseFailure);
      }
      var out := input[cursor..cursor + len];
      assert out == Rest()[..len];
      cursor := cursor + len;
      r := Ok(out);
    }

    method ReadFixed(n: nat) returns (r: Result<Bytes>)
      requires Valid()
      modifies this
      ensures Valid() && Reads(TakeFixed(old(Rest()), n), r, Rest())
    {
      var bytes :- ReadBytes(n);
      if |bytes| != n {
        return Err(ParseFailure);
      }
      r := Ok(bytes);
    }

    method ReadText(maxLen: nat) returns (r: Result<Bytes>)
      requires Valid()
      modifies this
      ensures Valid() && Reads(TakeText(old(Rest()), maxLen), r, Rest())
    {
      var bytes :- ReadBytes(maxLen);
      if !ValidUtf8(bytes) {
        return Err(ParseFailure);
      }
      r := Ok(bytes);
    }

    method ReadRights() returns (r: Result<Rights>)
      requires Valid()
      modifies this
      ensures Valid() && Reads(TakeRights(old(Rest())), r, Rest())
    {
      var bits :- ReadU16();
      r := Ok(Rights(bits));
    }

    method ReadPolicy() returns (r: Result<TemporalPolicy>)
      requires Valid()
      modifies this
      ensures Valid() && Reads(TakeTemporalPolicy(old(Rest())), r, Rest())
    {
      if |input| - cursor < 1 {
        return Err(ParseFailure);
      }
      var tag := input[cursor];
      cursor := cursor + 1;
      assert Rest() == old(Rest())[1..];
      if tag == 0x01 {
        var e :- ReadU64();
        return Ok(Historical(e));
      } else if tag == 0x02 {
        return Ok(Current);
      } else if tag == 0x03 {
        var start :- ReadU64();
        var end :- ReadU64();
        return Ok(Window(start, end));
      } else if tag == 0x04 {
        var after :- ReadU64();
        return Ok(ResealRequired(after));
      } else {
        return Err(ParseFailure);
      }
    }
  }

  lemma NumberBounds(b: Bytes)
    ensures |b| == 2 ==> FromLittleEndian(b) < 0x1_0000
    ensures |b| == 4 ==> FromLittleEndian(b) < U32_SPAN
    ensures |b| == 8 ==> FromLittleEndian(b) < U64_SPAN
  {
    FromLittleEndianBound(b);
    Pow256Values();
  }
}
