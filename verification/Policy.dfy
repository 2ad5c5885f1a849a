/** Rights masks and temporal policies (src/core/rights.rs, src/core/temporal.rs). */
module Policy {
  import opened Octets

  /** A 16-bit rights mask. */
  datatype Rights = Rights(bits: u16) {
    predicate ContainsAll(required: Rights) {
      Covers(bits, required.bits, 16)
    }
  }

  /** `mask & required == required` on the low `width` bits: each bit set in `required` is set in `mask`. */
  predicate Covers(mask: nat, required: nat, width: nat) {
    width == 0 || ((required % 2 == 1 ==> mask % 2 == 1) && Covers(mask / 2, required / 2, width - 1))
  }

  const DELEGATE: Rights := Rights(0x20)

  /** Bit `i` of `n`, counting from the least significant. */
  predicate HasBit(n: nat, i: nat) {
    if i == 0 then n % 2 == 1 else HasBit(n / 2, i - 1)
  }

  /** Each of the `width` low bits set in `required` is set in `mask`. */
  ghost predicate CoversBits(mask: nat, required: nat, width: nat) {
    forall i: nat :: i < width && HasBit(required, i) ==> HasBit(mask, i)
  }

  lemma {:induction false} CoversIff(mask: nat, required: nat, width: nat)
    ensures Covers(mask, required, width) <==> CoversBits(mask, required, width)
    decreases width
  {
    if width > 0 {
      CoversIff(mask / 2, required / 2, width - 1);
      if Covers(mask, required, width) {
        forall i: nat | i < width && HasBit(required, i)
          ensures HasBit(mask, i)
        {
          assert i > 0 ==> HasBit(required / 2, i - 1);
        }
      } else if CoversBits(mask, required, width) {
        assert HasBit(required, 0) ==> HasBit(mask, 0);
        forall i: nat | i < width - 1 && HasBit(required / 2, i)
          ensures HasBit(mask / 2, i)
        {
          assert HasBit(required, i + 1);
        }
        assert false;
      }
    }
  }

  /** One mask contains another exactly when each of the sixteen rights set in the other is set in it. */
  lemma ContainsAllIff(a: Rights, b: Rights)
    ensures a.ContainsAll(b) <==> CoversBits(a.bits, b.bits, 16)
  {
    CoversIff(a.bits, b.bits, 16);
  }

  /** The right to delegate is bit five and nothing else. */
  lemma DelegateIsBitFive(a: Rights)
    ensures a.ContainsAll(DELEGATE) <==> HasBit(a.bits, 5)
  {
    ContainsAllIff(a, DELEGATE);
    assert HasBit(0x20, 5) by {
      assert HasBit(1, 0) && HasBit(2, 1) && HasBit(4, 2) && HasBit(8, 3) && HasBit(0x10, 4);
    }
    forall i: nat | i < 16 && HasBit(DELEGATE.bits, i)
      ensures i == 5
    {
      OneBit(5, i);
    }
  }

  lemma {:induction false} OneBit(k: nat, i: nat)
    requires k <= 5 && HasBit([1, 2, 4, 8, 0x10, 0x20][k], i)
    ensures i == k
    decreases i
  {
    if i > 0 && k > 0 {
      OneBit(k - 1, i - 1);
    } else if i > 0 {
      NoBits(i - 1);
      assert false;
    }
  }

  lemma {:induction false} NoBits(i: nat)
    ensures !HasBit(0, i)
  {
    if i > 0 {
      NoBits(i - 1);
    }
  }

  datatype TemporalPolicy =
    | Historical(epoch: u64)
    | Current
    | Window(start: u64, end: u64)
    | ResealRequired(after: u64)
  {
    predicate Accepts(openEpoch: u64, sealEpoch: u64) {
      match this
      case Historical(epoch) => epoch == sealEpoch
      case Current => openEpoch >= sealEpoch
      case Window(start, end) => start <= openEpoch <= end
      case ResealRequired(_) => openEpoch >= sealEpoch
    }

    function RequiredWrapperEpoch(openEpoch: u64, sealEpoch: u64): u64 {
      match this
      case Historical(_) => sealEpoch
      case Current => openEpoch
      case Window(_, _) => openEpoch
      case ResealRequired(after) => if openEpoch <= after then sealEpoch else openEpoch
    }

    /** Both gates together: a state at `openEpoch` may open, with the wrapper for that epoch. */
    predicate Admits(openEpoch: u64, sealEpoch: u64) {
      Accepts(openEpoch, sealEpoch) && RequiredWrapperEpoch(openEpoch, sealEpoch) == openEpoch
    }

    /** The rule in section 10 of the Kyriotēs-CSK2 specification sheet, when `live` is the current epoch. */
    predicate Documented(openEpoch: u64, live: u64) {
      match this
      case Historical(epoch) => openEpoch == epoch
      case Current => openEpoch == live
      case Window(start, end) => start <= openEpoch <= end
      case ResealRequired(after) => openEpoch <= after
    }
  }

  /** Which epochs each policy admits. */
  lemma AdmitsExactly(p: TemporalPolicy, openEpoch: u64, sealEpoch: u64)
    ensures p.Admits(openEpoch, sealEpoch) <==>
      match p
      case Historical(epoch) => openEpoch == sealEpoch == epoch
      case Current => openEpoch >= sealEpoch
      case Window(start, end) => start <= openEpoch <= end
      case ResealRequired(after) => openEpoch == sealEpoch || (openEpoch >= sealEpoch && openEpoch > after)
  {
  }

  /**
    Which policies admit, over all epochs, what the documentation says: a historical one
    exactly when it names the seal epoch, a window always, a reseal policy never, and a
    current one only at the last epoch there is.
   */
  lemma AgreesWithDocumentationIff(p: TemporalPolicy, sealEpoch: u64, live: u64)
    ensures (forall e: u64 :: p.Admits(e, sealEpoch) <==> p.Documented(e, live)) <==>
      match p
      case Historical(epoch) => epoch == sealEpoch
      case Current => sealEpoch == live == U64_MAX
      case Window(_, _) => true
      case ResealRequired(_) => false
  {
    match p {
      case Historical(epoch) =>
        assert p.Documented(epoch, live);
      case Current =>
        assert p.Admits(U64_MAX, sealEpoch) && p.Admits(sealEpoch, sealEpoch);
      case Window(_, _) =>
      case ResealRequired(after) =>
        assert p.Admits(U64_MAX, sealEpoch) || after == U64_MAX;
        assert p.Documented(0, live) && p.Documented(after, live);
        assert after == U64_MAX ==> p.Documented(1, live) && !(p.Admits(0, sealEpoch) && p.Admits(1, sealEpoch));
    }
  }

  /** Epoch by epoch, for the two policies that differ. */
  lemma AgreesAtEpochIff(p: TemporalPolicy, e: u64, sealEpoch: u64, live: u64)
    requires sealEpoch <= live
    ensures p.Current? ==> ((p.Admits(e, sealEpoch) <==> p.Documented(e, live)) <==> e < sealEpoch || e == live)
    ensures p.ResealRequired? ==>
      ((p.Admits(e, sealEpoch) <==> p.Documented(e, live)) <==>
        if e <= p.after then e == sealEpoch else e < sealEpoch)
  {
  }
}
