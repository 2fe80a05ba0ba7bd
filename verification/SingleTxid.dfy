/**
  The path of a token with one txid, for every subtree size and every pair hash: what the assemblies list, and
  what a verifier computes from it. The siblings are the right ones, but they are folded by the bits of the global
  index, where the tree was built by the bits of the local index and of the subtree's number.
 */
module SingleTxid {
  import opened Arith
  import opened Hashes
  import opened Bytes
  import opened Tree
  import opened Block
  import opened Bump
  import opened FragmentCodec
  import opened Emit
  import opened Canon
  import opened Jit
  import opened Fragments
  import opened Compound

  /** What position p alone calls for at level k, in any order. */
  ghost predicate LevelHolds(plan: Plan, p: Pos, k: nat, lev: Level)
    requires ValidPlan(plan) && Readable(plan, k, p)
  {
    forall e :: e in lev <==> e == SibEntry(plan, k, p) || (k == 0 && e == TxidEntry(plan, p))
  }

  ghost predicate HoldsOne(plan: Plan, p: Pos, raw: Path) {
    && ValidPlan(plan) && |raw| == plan.height + plan.topHeight
    && (forall k :: 0 <= k < |raw| ==> Readable(plan, k, p) && LevelHolds(plan, p, k, raw[k]))
  }

  // ---- Both assemblies list just that ----------------------------------------------------------------

  lemma OneReadable(plan: Plan, k: nat, p: Pos)
    requires Readable(plan, k, p)
    ensures AllReadable(plan, k, []) && AllReadable(plan, k, [p])
  {}

  lemma SiblingEntry(plan: Plan, k: nat, p: Pos)
    requires ValidPlan(plan) && Readable(plan, k, p)
    ensures SibEntry(plan, k, p).offset == Sib(Shr(p.g, k)) && !SibEntry(plan, k, p).txid
  {}

  lemma EmittedOne(plan: Plan, k: nat, p: Pos)
    requires ValidPlan(plan) && Readable(plan, k, p)
    ensures AllReadable(plan, k, [p])
    ensures k > 0 ==> Emitted(Local, plan, k, [p]) == [SibEntry(plan, k, p)]
    ensures k == 0 ==> p.si in plan.subtrees && Emitted(Local, plan, k, [p]) == [TxidEntry(plan, p), SibEntry(plan, k, p)]
    ensures SibEntry(plan, k, p).offset == Sib(Shr(p.g, k)) && !SibEntry(plan, k, p).txid
  {
    OneReadable(plan, k, p);
    SiblingEntry(plan, k, p);
    StepParts(Local, plan, k, [], p);
    hide SibEntry, TxidEntry, Readable, ValidPlan, AllReadable;
    assert [] + [p] == [p];
    assert Emitted(Local, plan, k, []) == [];
    EmittedSnoc(Local, plan, k, [], p);
  }

  lemma EmittedHolds(plan: Plan, k: nat, p: Pos)
    requires ValidPlan(plan) && Readable(plan, k, p)
    ensures AllReadable(plan, k, [p]) && LevelHolds(plan, p, k, Emitted(Local, plan, k, [p]))
  {
    EmittedOne(plan, k, p);
    hide Emitted, SibEntry, TxidEntry, ValidPlan, Readable;
  }

  lemma JitHoldsOne(plan: Plan, p: Pos, raw: Path)
    requires p.si in plan.subtrees && ValidPositions(plan, [p]) && RawPath(plan, [p], raw)
    ensures HoldsOne(plan, p, raw)
  {
    LoadedAll(plan, [p]);
    assert [p][0] == p;
    forall k | 0 <= k < |raw|
      ensures Readable(plan, k, p) && LevelHolds(plan, p, k, raw[k])
    {
      assert LevelReadable(plan, [p], k) && raw[k] == RawLevel(plan, [p], k);
      EmittedHolds(plan, k, p);
    }
  }

  function OnePiece(p: Pos): Piece {
    Piece(p.si, [p.li])
  }

  lemma OnePosition(plan: Plan, p: Pos)
    requires ValidPos(plan.hps, p)
    ensures Positions(plan.hps, p.si, [p.li]) == [p]
  {}

  lemma {:induction false} ShrAtMost(x: nat, k: nat)
    ensures Shr(x, k) <= x
  {
    if k > 0 { ShrAtMost(x, k - 1); }
  }

  /** Level k of the one-leaf fragment: the entries, at most two, with offsets that fit. */
  lemma OneLevel(plan: Plan, p: Pos, levels: seq<Level>, k: nat)
    requires ValidPlan(plan) && ValidPos(plan.hps, p) && ValidPiece(plan, OnePiece(p)) && k < plan.height
    requires Extracted(plan.hps, plan.height, p.si, plan.subtrees[p.si], [p.li], levels)
    ensures Readable(plan, k, p) && k < |levels| && SortOf(Emitted(Local, plan, k, [p]), levels[k])
    ensures AllReadable(plan, k, [p])
  {
    var own := SubtreePlan(plan.hps, plan.height, p.si, plan.subtrees[p.si]);
    OnePosition(plan, p);
    assert ValidPlan(own) && AllReadable(own, k, [p]) && SortOf(Emitted(Local, own, k, [p]), levels[k]);
    hide Emitted, SortOf;
    SamePlanEmits(own, plan, k, [p], p.si);
    assert [p][0] == p;
  }

  lemma PermutedHolds(plan: Plan, p: Pos, k: nat, lev: Level)
    requires ValidPlan(plan) && Readable(plan, k, p) && AllReadable(plan, k, [p])
    requires SortOf(Emitted(Local, plan, k, [p]), lev)
    ensures LevelHolds(plan, p, k, lev) && |lev| <= 2
  {
    var raw := Emitted(Local, plan, k, [p]);
    EmittedHolds(plan, k, p);
    EmittedSize(Local, plan, k, [p]);
    SortOfSize(raw, lev);
    hide Emitted, SibEntry, TxidEntry, Readable, ValidPlan, AllReadable;
    forall e
      ensures e in lev <==> e in raw
    {
      assert e in lev <==> e in multiset(lev);
      assert e in raw <==> e in multiset(raw);
    }
  }

  lemma OneLevelFits(plan: Plan, p: Pos, k: nat, lev: Level)
    requires ValidPlan(plan) && Readable(plan, k, p) && LevelHolds(plan, p, k, lev) && |lev| <= 2
    requires p.g + 1 < U64
    ensures LevelFits(lev)
  {
    EmittedOne(plan, k, p);
    ShrAtMost(p.g, k);
    forall i | 0 <= i < |lev|
      ensures lev[i].offset < U64
    {
      assert lev[i] in lev;
    }
  }

  lemma InBlockFits(plan: Plan, p: Pos, count: nat)
    requires WithinLimits(plan, count) && ValidPos(plan.hps, p) && p.si < count
    ensures p.g + 1 < U64
  {
    MulStep(p.si, count, plan.hps);
  }

  /** A stored one-leaf fragment loads back. */
  lemma OnePieceReads(plan: Plan, p: Pos, levels: seq<Level>)
    requires ValidPlan(plan) && ValidPos(plan.hps, p) && ValidPiece(plan, OnePiece(p))
    requires WithinLimits(plan, |plan.topProofs|)
    requires Extracted(plan.hps, plan.height, p.si, plan.subtrees[p.si], [p.li], levels)
    ensures Parse(FragmentBytes(levels)) == Success(levels)
  {
    InBlockFits(plan, p, |plan.topProofs|);
    assert |levels| == plan.height < 256;
    forall k | 0 <= k < |levels|
      ensures LevelFits(levels[k])
    {
      OneLevel(plan, p, levels, k);
      PermutedHolds(plan, p, k, levels[k]);
      OneLevelFits(plan, p, k, levels[k]);
    }
    FragmentRoundTrip(levels);
  }

  lemma JoinedOne(levels: seq<Level>, height: nat, k: nat)
    requires k < |levels| && k < height
    ensures Joined([levels], height, k) == levels[k]
  {
    assert [levels][..0] == [];
    assert Joined([], height, k) + levels[k] == levels[k];
  }

  lemma PairOrder(t: Entry, s: Entry, lev: Level)
    requires multiset([t, s]) == multiset(lev)
    ensures lev == [t, s] || lev == [s, t]
  {
    assert |lev| == |multiset(lev)| == |multiset([t, s])| == 2;
    assert lev == [lev[0], lev[1]];
    assert multiset(lev)[t] == multiset([t, s])[t] && multiset(lev)[s] == multiset([t, s])[s];
    assert lev[0] in multiset([t, s]) && lev[1] in multiset([t, s]);
  }

  lemma PairPositions(hps: nat, t: Entry, s: Entry, lev: Level)
    requires hps > 0 && t.txid && !s.txid && (lev == [t, s] || lev == [s, t])
    ensures TxidPositions(hps, lev) == [Pos(Quot(t.offset, hps), Rem(t.offset, hps), t.offset)]
  {
    var a, b := lev[0], lev[1];
    assert lev[..1] == [a] && [a][..0] == [];
    assert TxidPositions(hps, [a]) == [] + (if a.txid then [Pos(Quot(a.offset, hps), Rem(a.offset, hps), a.offset)] else []);
    hide Quot, Rem;
  }

  /** Only the txid entry of level 0 stands for a position. */
  lemma OneTxid(plan: Plan, p: Pos, lev: Level)
    requires ValidPlan(plan) && Readable(plan, 0, p) && AllReadable(plan, 0, [p])
    requires SortOf(Emitted(Local, plan, 0, [p]), lev)
    ensures TxidPositions(plan.hps, lev) == [p]
  {
    EmittedOne(plan, 0, p);
    PairOrder(TxidEntry(plan, p), SibEntry(plan, 0, p), lev);
    DivModSplit(p.si, p.li, plan.hps);
    hide Emitted, SibEntry, SortOf, Quot, Rem, TxidPositions;
    PairPositions(plan.hps, TxidEntry(plan, p), SibEntry(plan, 0, p), lev);
  }

  lemma OneRawTop(plan: Plan, p: Pos, levels: seq<Level>, raw: Path, k: nat)
    requires RawFromFragments(plan, [levels], raw) && plan.height <= k < |raw|
    requires TxidPositions(plan.hps, Joined([levels], plan.height, 0)) == [p]
    ensures Readable(plan, k, p) && LevelHolds(plan, p, k, raw[k])
  {
    assert AllReadable(plan, k, [p]) && raw[k] == Emitted(Local, plan, k, [p]) && [p][0] == p;
    EmittedHolds(plan, k, p);
  }

  lemma OneRawLow(plan: Plan, p: Pos, levels: seq<Level>, raw: Path, k: nat)
    requires ValidPlan(plan) && ValidPos(plan.hps, p) && ValidPiece(plan, OnePiece(p)) && k < plan.height
    requires Extracted(plan.hps, plan.height, p.si, plan.subtrees[p.si], [p.li], levels)
    requires RawFromFragments(plan, [levels], raw)
    ensures k < |raw| && Readable(plan, k, p) && LevelHolds(plan, p, k, raw[k])
  {
    assert raw[k] == Joined([levels], plan.height, k);
    assert p.si in plan.subtrees;
    hide *;
    OneLevel(plan, p, levels, k);
    PermutedHolds(plan, p, k, levels[k]);
    JoinedOne(levels, plan.height, k);
  }

  lemma OneRawTxid(plan: Plan, p: Pos, levels: seq<Level>)
    requires ValidPlan(plan) && ValidPos(plan.hps, p) && ValidPiece(plan, OnePiece(p)) && 0 < plan.height
    requires Extracted(plan.hps, plan.height, p.si, plan.subtrees[p.si], [p.li], levels)
    ensures TxidPositions(plan.hps, Joined([levels], plan.height, 0)) == [p]
  {
    assert p.si in plan.subtrees;
    hide *;
    OneLevel(plan, p, levels, 0);
    OneTxid(plan, p, levels[0]);
    JoinedOne(levels, plan.height, 0);
  }

  lemma RawHoldsOne(plan: Plan, p: Pos, levels: seq<Level>, raw: Path)
    requires ValidPlan(plan) && ValidPos(plan.hps, p) && ValidPiece(plan, OnePiece(p))
    requires Extracted(plan.hps, plan.height, p.si, plan.subtrees[p.si], [p.li], levels)
    requires RawFromFragments(plan, [levels], raw)
    ensures HoldsOne(plan, p, raw)
  {
    assert 0 < plan.height && |raw| == plan.height + plan.topHeight;
    OneRawTxid(plan, p, levels);
    forall k | 0 <= k < |raw|
      ensures Readable(plan, k, p) && LevelHolds(plan, p, k, raw[k])
    {
      if k < plan.height {
        OneRawLow(plan, p, levels, raw, k);
      } else {
        OneRawTop(plan, p, levels, raw, k);
      }
    }
    hide Readable, LevelHolds, ValidPiece, Extracted, ValidPos, TxidPositions, RawFromFragments;
  }

  /** The fragment assembly of one stored one-leaf fragment. */
  lemma FragmentHoldsOne(plan: Plan, p: Pos, data: Data, raw: Path)
    requires ValidPlan(plan) && ValidPos(plan.hps, p) && ValidPiece(plan, OnePiece(p))
    requires WithinLimits(plan, |plan.topProofs|) && StoredPiece(plan, OnePiece(p), data)
    requires AllParse([data]) && RawFromFragments(plan, Parsed([data]), raw)
    ensures HoldsOne(plan, p, raw)
  {
    var levels :| Extracted(plan.hps, plan.height, p.si, plan.subtrees[p.si], [p.li], levels) && data == FragmentBytes(levels);
    OnePieceReads(plan, p, levels);
    assert Parsed([data]) == [levels];
    RawHoldsOne(plan, p, levels, raw);
  }

  // ---- What the siblings are -------------------------------------------------------------------------

  /** The leaf's path in its subtree, followed by the subtree's path in the top tree. */
  function TwoTierProof(hp: HashFn, subs: seq<seq<Hash>>, p: Pos): seq<Hash>
    requires p.si < |subs| && forall i :: 0 <= i < |subs| ==> |subs[i]| > 0
  {
    ProofOf(hp, subs[p.si], p.li) + ProofOf(hp, Roots(hp, subs), p.si)
  }

  lemma SiblingHash(hp: HashFn, subs: seq<seq<Hash>>, plan: Plan, p: Pos, k: nat)
    requires Sealed(hp, subs, plan) && ValidPlan(plan) && Readable(plan, k, p) && p.si < |subs|
    ensures forall i :: 0 <= i < |subs| ==> |subs[i]| > 0
    ensures k < |TwoTierProof(hp, subs, p)| == plan.height + plan.topHeight
    ensures SibEntry(plan, k, p) == Entry(Sib(Shr(p.g, k)), TwoTierProof(hp, subs, p)[k], false)
  {
    SealedFacts(hp, subs, plan);
    hide Sib, Shr, Node, Pow2, Log2, SubtreeSibling;
    if k >= plan.height {
      assert plan.topProofs[p.si] == ProofOf(hp, Roots(hp, subs), p.si);
    } else if k > 0 {
      StoreCell(hp, subs[p.si], plan.subtrees[p.si], plan.hps, plan.height, k, p.li);
    } else {
      LeafCell(hp, subs[p.si], plan.subtrees[p.si], plan.hps, plan.height, p.li);
    }
  }

  // ---- What a verifier makes of them -----------------------------------------------------------------

  lemma OneListed(plan: Plan, p: Pos, raw: Path, k: nat, o: nat)
    requires HoldsOne(plan, p, raw) && k < |raw|
    ensures Lists(raw[k], o) <==> o == Sib(Shr(p.g, k)) || (k == 0 && o == p.g)
  {
    assert Readable(plan, k, p) && LevelHolds(plan, p, k, raw[k]);
    EmittedOne(plan, k, p);
    assert k == 0 ==> TxidEntry(plan, p).offset == p.g;
    hide SibEntry, TxidEntry, Readable, ValidPlan, Sib, Shr, Emitted;
    var s := SibEntry(plan, k, p);
    assert s in raw[k];
    var i :| 0 <= i < |raw[k]| && raw[k][i] == s;
    if k == 0 {
      assert TxidEntry(plan, p) in raw[0];
    }
    if Lists(raw[k], o) {
      var j :| 0 <= j < |raw[k]| && raw[k][j].offset == o;
      assert raw[k][j] in raw[k];
    }
  }

  /** The sibling of an ancestor never has both children listed: they are not on the leaf's own way up. */
  lemma OneUnpruned(plan: Plan, p: Pos, raw: Path, k: nat)
    requires HoldsOne(plan, p, raw) && k < |raw|
    ensures !Prunable(raw, k, Sib(Shr(p.g, k)))
  {
    if k > 0 {
      var x, o := Shr(p.g, k - 1), Sib(Shr(p.g, k));
      OneListed(plan, p, raw, k - 1, 2 * o);
      assert Shr(p.g, k) == x / 2;
      SibHalf(x);
      assert k - 1 == 0 ==> x == p.g;
      hide HoldsOne, Shr;
    }
  }

  lemma OneResolves(hp: HashFn, plan: Plan, p: Pos, raw: Path, out: Path, k: nat)
    requires HoldsOne(plan, p, raw) && Finished(raw, out) && k < |raw| && p.g != Sib(p.g)
    ensures ValidPlan(plan) && Readable(plan, k, p) && k < |out|
    ensures Resolve(hp, out, k, Sib(Shr(p.g, k))) == Some(SibEntry(plan, k, p).hash)
  {
    var o := Sib(Shr(p.g, k));
    assert Readable(plan, k, p) && LevelHolds(plan, p, k, raw[k]);
    assert |out| == |raw|;
    EmittedOne(plan, k, p);
    assert k == 0 ==> TxidEntry(plan, p).offset == p.g && Shr(p.g, 0) == p.g;
    OneListed(plan, p, raw, k, o);
    OneUnpruned(plan, p, raw, k);
    hide SibEntry, TxidEntry, Readable, ValidPlan, Sib, Shr, Emitted, HoldsOne, Finished, Prunable;
    FinishedLists(raw, out, k, o);
    FindHashSpec(out[k], o);
    var i :| 0 <= i < |out[k]| && out[k][i].offset == o && out[k][i].hash == FindHash(out[k], o).value;
    FinishedEntry(raw, out, k, out[k][i]);
    assert out[k][i] in out[k];
  }

  ghost predicate Resolves(hp: HashFn, path: Path, proof: seq<Hash>, g: nat) {
    |proof| == |path| && forall k :: 0 <= k < |path| ==> Resolve(hp, path, k, Sib(Shr(g, k))) == Some(proof[k])
  }

  lemma {:induction false} ClimbFolds(hp: HashFn, path: Path, proof: seq<Hash>, g: nat, k: nat, cur: Hash)
    requires Resolves(hp, path, proof, g) && k <= |path|
    ensures Climb(hp, path, k, Shr(g, k), cur) == Some(Fold(hp, proof, g, k, cur))
    decreases |path| - k
  {
    if k < |path| {
      assert Shr(g, k + 1) == Shr(g, k) / 2;
      ClimbFolds(hp, path, proof, g, k + 1, Join(hp, Shr(g, k), cur, proof[k]));
    }
  }

  lemma OneFound(plan: Plan, p: Pos, raw: Path, out: Path)
    requires HoldsOne(plan, p, raw) && Finished(raw, out) && |raw| > 0 && 0 < plan.height
    ensures |out| > 0 && p.si in plan.subtrees && ValidPlan(plan) && ValidPos(plan.hps, p) && Readable(plan, 0, p)
    ensures SibEntry(plan, 0, p).hash != TxidEntry(plan, p).hash ==>
      FindTxid(out[0], TxidEntry(plan, p).hash) == Some(p.g)
  {
    assert Readable(plan, 0, p) && LevelHolds(plan, p, 0, raw[0]);
    var t := TxidEntry(plan, p);
    assert t.offset == p.g;
    FinishedEntry(raw, out, 0, t);
    FindTxidSpec(out[0], t.hash);
    hide SibEntry, TxidEntry;
    if SibEntry(plan, 0, p).hash != t.hash {
      var e :| e in out[0] && e.hash == t.hash && e.offset == FindTxid(out[0], t.hash).value;
      FinishedEntry(raw, out, 0, e);
    }
  }

  lemma AllResolve(hp: HashFn, subs: seq<seq<Hash>>, plan: Plan, p: Pos, raw: Path, out: Path)
    requires Sealed(hp, subs, plan) && HoldsOne(plan, p, raw) && Finished(raw, out) && p.si < |subs|
    requires forall i :: 0 <= i < |subs| ==> |subs[i]| > 0
    ensures Resolves(hp, out, TwoTierProof(hp, subs, p), p.g)
  {
    assert |out| == |raw| == plan.height + plan.topHeight && ValidPlan(plan);
    assert |TwoTierProof(hp, subs, p)| == |out|;
    hide Sealed, HoldsOne, Finished, TwoTierProof, Shr, Resolve, ValidPlan;
    forall k | 0 <= k < |out|
      ensures Resolve(hp, out, k, Sib(Shr(p.g, k))) == Some(TwoTierProof(hp, subs, p)[k])
    {
      OneResolves(hp, plan, p, raw, out, k);
      SiblingHash(hp, subs, plan, p, k);
    }
  }

  lemma ComputesClimb(hp: HashFn, path: Path, txid: Hash, o: nat)
    requires |path| > 0 && FindTxid(path[0], txid) == Some(o)
    ensures ComputeRoot(hp, path, txid) == Climb(hp, path, 0, o, txid)
  {}

  /**
    What a verifier computes for a txid alone in its token, whose sibling leaf is another hash: its path in its
    subtree and the subtree's path in the top tree, folded by the bits of the global index.
   */
  lemma SingleComputes(hp: HashFn, subs: seq<seq<Hash>>, plan: Plan, p: Pos, raw: Path, out: Path)
    requires Sealed(hp, subs, plan) && p.si < |subs| && HoldsOne(plan, p, raw) && Finished(raw, out)
    requires p.li < |subs[p.si]| && PadLeaf(subs[p.si], Sib(p.li)) != subs[p.si][p.li]
    ensures |out| > 0 && forall i :: 0 <= i < |subs| ==> |subs[i]| > 0
    ensures ComputeRoot(hp, out, subs[p.si][p.li]) ==
            Some(Fold(hp, TwoTierProof(hp, subs, p), p.g, 0, subs[p.si][p.li]))
  {
    SealedFacts(hp, subs, plan);
    var leaf := subs[p.si][p.li];
    OneFound(plan, p, raw, out);
    SiblingHash(hp, subs, plan, p, 0);
    assert Shr(p.li, 0) == p.li && Shr(p.g, 0) == p.g;
    assert TwoTierProof(hp, subs, p)[0] == PadLeaf(subs[p.si], Sib(p.li));
    assert TxidEntry(plan, p).hash == leaf;
    hide *;
    AllResolve(hp, subs, plan, p, raw, out);
    ClimbFolds(hp, out, TwoTierProof(hp, subs, p), p.g, 0, leaf);
    ComputesClimb(hp, out, leaf, p.g);
  }
}
