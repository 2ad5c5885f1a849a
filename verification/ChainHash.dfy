/**
  The epoch chain hash of src/kyriotes_csk2/transparency.rs: each rotation hashes
  the previous value, so the last value binds the whole history.
 */
module ChainHash {
  import opened Octets
  import opened Merkle

  const GENESIS_TAG: string := "KYRIOTES-CSK2-LOG-GENESIS-v1"

  /** What one rotation contributes to the chain. */
  datatype Link = Link(
    authorityRoot: Bytes32,
    revocationRoot: Bytes32,
    epoch: u64,
    epochPk: Bytes32,
    rootSig: Bytes64)

  function LinkBody(l: Link): (b: Bytes)
    ensures |b| == 168
  {
    l.authorityRoot + l.revocationRoot + LittleEndian(l.epoch, 8) + l.epochPk + l.rootSig
  }

  function LinkInput(prev: Bytes32, l: Link): Bytes {
    (if l.epoch == 0 then Ascii(GENESIS_TAG) else prev) + LinkBody(l)
  }

  /** `transparency_log_entry_hash` */
  function EntryHash(h: Hash, prev: Bytes32, l: Link): Bytes32 {
    h(LinkInput(prev, l))
  }

  /** The chain hash after a history of rotations, each linked to the one before it. */
  function Chain(h: Hash, links: seq<Link>): Bytes32 {
    if links == [] then ZERO
    else EntryHash(h, Chain(h, links[..|links| - 1]), links[|links| - 1])
  }

  ghost predicate ChainWithin(h: Hash, links: seq<Link>, Q: set<Bytes>) {
    links != [] ==>
      && LinkInput(Chain(h, links[..|links| - 1]), links[|links| - 1]) in Q
      && ChainWithin(h, links[..|links| - 1], Q)
  }

  /** Starts at the genesis epoch and never returns to it. */
  ghost predicate FromGenesis(links: seq<Link>) {
    && links != [] && links[0].epoch == 0
    && forall i :: 0 < i < |links| ==> links[i].epoch > 0
  }

  lemma LinkBodyInjective(a: Link, b: Link)
    requires LinkBody(a) == LinkBody(b)
    ensures a == b
  {
    var x, y := LinkBody(a), LinkBody(b);
    assert x[..32] == a.authorityRoot && x[32..64] == a.revocationRoot && x[64..72] == LittleEndian(a.epoch, 8);
    assert x[72..104] == a.epochPk && x[104..] == a.rootSig;
    assert y[..32] == b.authorityRoot && y[32..64] == b.revocationRoot && y[64..72] == LittleEndian(b.epoch, 8);
    assert y[72..104] == b.epochPk && y[104..] == b.rootSig;
    LittleEndian64Injective(a.epoch, b.epoch);
  }

  /** Equal inputs come from the same link, and past genesis from the same previous hash. */
  lemma LinkInputInjective(p: Bytes32, a: Link, q: Bytes32, b: Link)
    requires LinkInput(p, a) == LinkInput(q, b)
    ensures a == b && (a.epoch > 0 ==> p == q)
  {
    hide LinkBody;
    var x, y := LinkInput(p, a), LinkInput(q, b);
    GenesisTagLength();
    assert x[|x| - 168..] == LinkBody(a) && y[|y| - 168..] == LinkBody(b);
    LinkBodyInjective(a, b);
    if a.epoch > 0 {
      assert x[..32] == p && y[..32] == q;
    }
  }

  lemma GenesisTagLength()
    ensures |GENESIS_TAG| == 28
  {
  }

  /**
    The final hash binds the whole history: two chains from genesis with the same final
    value have the same length and the same links.
   */
  lemma {:induction false} ChainBindsHistory(h: Hash, Q: set<Bytes>, xs: seq<Link>, ys: seq<Link>)
    requires FromGenesis(xs) && FromGenesis(ys) && Chain(h, xs) == Chain(h, ys)
    requires CollisionFree(h, Q) && ChainWithin(h, xs, Q) && ChainWithin(h, ys, Q)
    ensures xs == ys
  {
    hide LinkInput;
    var m, n := |xs| - 1, |ys| - 1;
    LinkInputInjective(Chain(h, xs[..m]), xs[m], Chain(h, ys[..n]), ys[n]);
    if m > 0 && n > 0 {
      ChainBindsHistory(h, Q, xs[..m], ys[..n]);
    }
    assert xs == xs[..m] + [xs[m]] && ys == ys[..n] + [ys[n]];
  }

  lemma GenesisIgnoresPrevious(h: Hash, p: Bytes32, q: Bytes32, l: Link)
    requires l.epoch == 0
    ensures EntryHash(h, p, l) == EntryHash(h, q, l)
  {
  }

  /** A link hides what came before it exactly when it is a genesis link. */
  lemma OnlyGenesisForgets(h: Hash, Q: set<Bytes>, p: Bytes32, q: Bytes32, l: Link)
    requires p != q && CollisionFree(h, Q) && LinkInput(p, l) in Q && LinkInput(q, l) in Q
    ensures EntryHash(h, p, l) == EntryHash(h, q, l) <==> l.epoch == 0
  {
    hide LinkBody;
    if EntryHash(h, p, l) == EntryHash(h, q, l) {
      LinkInputInjective(p, l, q, l);
    }
  }
}
