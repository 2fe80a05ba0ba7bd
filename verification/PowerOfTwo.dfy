/**
  For which subtree sizes the proofs hold. The harness only asks that the subtree size divide the block size;
  global offsets follow the tree exactly when the subtree size is a power of two.
 */
module PowerOfTwo {
  import opened Arith
  import opened Hashes
  import opened Bytes
  import opened Tree
  import opened Block
  import opened Bump
  import opened FragmentCodec
  import opened Emit
  import opened Canon
  import opened Validity
  import opened Jit
  import opened Fragments
  import opened Compound
  import opened SingleTxid

  ghost predicate DistinctLeaves(subs: seq<seq<Hash>>) {
    forall i, a, j, b ::
      0 <= i < |subs| && 0 <= a < |subs[i]| && 0 <= j < |subs| && 0 <= b < |subs[j]| && subs[i][a] == subs[j][b] ==>
        i == j && a == b
  }

  /** The path computes, for leaf li of subtree si, the root of the top tree. */
  ghost predicate Proves(hp: HashFn, subs: seq<seq<Hash>>, out: Path, si: nat, li: nat) {
    && |out| > 0 && |subs| > 0 && (forall i :: 0 <= i < |subs| ==> |subs[i]| > 0)
    && si < |subs| && li < |subs[si]|
    && ComputeRoot(hp, out, subs[si][li]) == Some(Root(hp, Roots(hp, subs)))
  }

  /** The just-in-time assembly of these positions proves every one whose subtree was loaded. */
  ghost predicate JitProves(hp: HashFn, subs: seq<seq<Hash>>, plan: Plan, order: seq<Pos>, raw: Path, out: Path) {
    Sealed(hp, subs, plan) && ValidPositions(plan, order) && Increasing(order) &&
    RawPath(plan, order, raw) && Finished(raw, out) ==>
      forall i :: 0 <= i < |order| && order[i].si in plan.subtrees ==> Proves(hp, subs, out, order[i].si, order[i].li)
  }

  /** The assembly from these stored fragments proves every leaf they were extracted for. */
  ghost predicate FragmentsProve(hp: HashFn, subs: seq<seq<Hash>>, plan: Plan, pieces: seq<Piece>, data: seq<Data>,
                                 raw: Path, out: Path) {
    Sealed(hp, subs, plan) && WithinLimits(plan, |subs|) && StoredPieces(plan, pieces, data) && AllParse(data) &&
    RawFromFragments(plan, Parsed(data), raw) && Finished(raw, out) ==>
      forall i, j :: 0 <= i < |pieces| && 0 <= j < |pieces[i].order| ==>
        Proves(hp, subs, out, pieces[i].si, pieces[i].order[j])
  }

  /** ... for every hash function, every block of distinct txids in subtrees of this size, and every token. */
  ghost predicate JitAlwaysProves(hps: nat) {
    forall hp: HashFn, subs: seq<seq<Hash>>, plan: Plan, order: seq<Pos>, raw: Path, out: Path ::
      plan.hps == hps && DistinctLeaves(subs) ==> JitProves(hp, subs, plan, order, raw, out)
  }

  ghost predicate FragmentsAlwaysProve(hps: nat) {
    forall hp: HashFn, subs: seq<seq<Hash>>, plan: Plan, pieces: seq<Piece>, data: seq<Data>, raw: Path, out: Path ::
      plan.hps == hps && DistinctLeaves(subs) ==> FragmentsProve(hp, subs, plan, pieces, data, raw, out)
  }

  // ---- A power of two ------------------------------------------------------------------------------

  lemma LeafProved(hp: HashFn, subs: seq<seq<Hash>>, plan: Plan, lo: set<nat>, hi: set<nat>, raw: Path, out: Path, p: Pos)
    requires Genuine(hp, subs, plan) && CanonicalPath(hp, subs, plan.height, lo, hi, raw) && Finished(raw, out)
    requires ValidPos(plan.hps, p) && p.si < |subs| && p.g in lo
    ensures Proves(hp, subs, out, p.si, p.li)
  {
    EndToEnd(hp, subs, plan.height, lo, hi, raw, out);
    OwnedLeaf(hp, subs, plan, p);
    assert Entry(p.g, LeafAt(subs, plan.height, p.g), true) in out[0];
    hide CanonicalPath, Finished, ComputeRoot, LeafAt;
  }

  lemma PowerOfTwoJit(hp: HashFn, subs: seq<seq<Hash>>, plan: Plan, order: seq<Pos>, raw: Path, out: Path)
    requires IsPow2(plan.hps)
    ensures JitProves(hp, subs, plan, order, raw, out)
  {
    if Sealed(hp, subs, plan) && ValidPositions(plan, order) && Increasing(order) &&
       RawPath(plan, order, raw) && Finished(raw, out) {
      GenuineFacts(hp, subs, plan);
      JitCanonical(hp, subs, plan, order, raw);
      forall i | 0 <= i < |order| && order[i].si in plan.subtrees
        ensures Proves(hp, subs, out, order[i].si, order[i].li)
      {
        PositionFacts(plan, order, i);
        LeafProved(hp, subs, plan, Globals(Loaded(plan, order)), Globals(order), raw, out, order[i]);
      }
    }
    hide ValidPositions, Increasing, RawPath, Finished, Proves, CanonicalPath, Globals, Loaded;
  }

  lemma {:induction false} OwnedByHas(plan: Plan, pieces: seq<Piece>, i: nat, g: nat)
    requires i < |pieces| && g in Globals(PiecePositions(plan, pieces[i]))
    ensures g in OwnedBy(plan, pieces)
  {
    if i < |pieces| - 1 {
      OwnedByHas(plan, pieces[..|pieces| - 1], i, g);
    }
  }

  /** Position j of a piece, as the assembly sees it. */
  function PieceLeaf(hps: nat, p: Piece, j: nat): Pos
    requires j < |p.order|
  {
    Pos(p.si, p.order[j], p.si * hps + p.order[j])
  }

  lemma PieceLeafOwned(plan: Plan, pieces: seq<Piece>, i: nat, j: nat)
    requires i < |pieces| && j < |pieces[i].order| && ValidPiece(plan, pieces[i])
    ensures ValidPos(plan.hps, PieceLeaf(plan.hps, pieces[i], j)) && pieces[i].si < |plan.topProofs|
    ensures PieceLeaf(plan.hps, pieces[i], j).g in OwnedBy(plan, pieces)
  {
    var p := PieceLeaf(plan.hps, pieces[i], j);
    assert PiecePositions(plan, pieces[i])[j] == p;
    OwnedByHas(plan, pieces, i, p.g);
  }

  lemma PowerOfTwoFragments(hp: HashFn, subs: seq<seq<Hash>>, plan: Plan, pieces: seq<Piece>, data: seq<Data>,
                            raw: Path, out: Path)
    requires IsPow2(plan.hps)
    ensures FragmentsProve(hp, subs, plan, pieces, data, raw, out)
  {
    if Sealed(hp, subs, plan) && WithinLimits(plan, |subs|) && StoredPieces(plan, pieces, data) && AllParse(data) &&
       RawFromFragments(plan, Parsed(data), raw) && Finished(raw, out) {
      GenuineFacts(hp, subs, plan);
      var owned := OwnedBy(plan, pieces);
      FragmentsCanonical(hp, subs, plan, pieces, data, raw);
      forall i, j | 0 <= i < |pieces| && 0 <= j < |pieces[i].order|
        ensures Proves(hp, subs, out, pieces[i].si, pieces[i].order[j])
      {
        PieceLeafOwned(plan, pieces, i, j);
        LeafProved(hp, subs, plan, owned, owned, raw, out, PieceLeaf(plan.hps, pieces[i], j));
      }
    }
    hide RawFromFragments, Finished, Proves, CanonicalPath, OwnedBy, ValidPiece, StoredPiece, AllParse;
  }

  // ---- Any other size --------------------------------------------------------------------------------

  /** hps itself, the first global index of the second subtree, is shifted to nothing by the subtree's height. */
  lemma SecondVanishes(hps: nat)
    requires hps >= 2 && !IsPow2(hps)
    ensures Shr(hps, Log2(hps)) == 0
  {
    Log2Bounds(hps);
    ShrBound(hps, Log2(hps), Log2(hps));
    assert Pow2(0) == 1;
  }

  lemma {:induction false} FoldSnoc(hp: HashFn, proof: seq<Hash>, last: Hash, g: nat, k: nat, cur: Hash)
    requires k <= |proof|
    ensures Fold(hp, proof + [last], g, k, cur) == Join(hp, Shr(g, |proof|), Fold(hp, proof, g, k, cur), last)
    decreases |proof| - k
  {
    if k < |proof| {
      assert (proof + [last])[k] == proof[k];
      FoldSnoc(hp, proof, last, g, k + 1, Join(hp, Shr(g, k), cur, proof[k]));
    }
  }

  function SecondFirst(hps: nat): Pos {
    Pos(1, 0, hps)
  }

  /** The first leaf of the second subtree, folded along its own path by the bits of hps. */
  function Misfolded(hp: HashFn, subs: seq<seq<Hash>>, hps: nat): Hash
    requires |subs| == 2 && |subs[1]| > 0
  {
    Fold(hp, ProofOf(hp, subs[1], 0), hps, 0, subs[1][0])
  }

  lemma TwoRoots(hp: HashFn, subs: seq<seq<Hash>>)
    requires |subs| == 2 && forall i :: 0 <= i < |subs| ==> |subs[i]| > 0
    ensures Root(hp, Roots(hp, subs)) == hp(Root(hp, subs[0]), Root(hp, subs[1]))
    ensures ProofOf(hp, Roots(hp, subs), 1) == [Root(hp, subs[0])]
  {
    assert Log2(2) == 1;
    assert Shr(1, 0) == 1;
    var roots := Roots(hp, subs);
    assert Node(hp, roots, 0, 0) == roots[0] && Node(hp, roots, 0, 1) == roots[1];
  }

  /**
    For every hash function and every two-subtree block whose size is no power of two: from the path of a token that
    holds only the second subtree's first txid, a verifier computes the hash of some value and the first subtree's
    root, where the block root is the hash of the first subtree's root and the second's. It is right exactly when
    those two hashes are equal, which without a collision takes equal subtree roots.
   */
  lemma SecondFirstComputes(hp: HashFn, subs: seq<seq<Hash>>, plan: Plan, raw: Path, out: Path)
    requires Sealed(hp, subs, plan) && |subs| == 2 && !IsPow2(plan.hps)
    requires HoldsOne(plan, SecondFirst(plan.hps), raw) && Finished(raw, out)
    requires |subs[1]| > 1 && subs[1][0] != subs[1][1]
    ensures |subs[0]| > 0 && |out| > 0 && forall i :: 0 <= i < |subs| ==> |subs[i]| > 0
    ensures var first, second := Root(hp, subs[0]), Root(hp, subs[1]);
      && ComputeRoot(hp, out, subs[1][0]) == Some(hp(Misfolded(hp, subs, plan.hps), first))
      && Root(hp, Roots(hp, subs)) == hp(first, second)
      && (Proves(hp, subs, out, 1, 0) <==> hp(Misfolded(hp, subs, plan.hps), first) == hp(first, second))
      && ((forall a, b, c, d :: hp(a, b) == hp(c, d) ==> a == c && b == d) && Proves(hp, subs, out, 1, 0) ==>
            first == second)
  {
    var hps, p := plan.hps, SecondFirst(plan.hps);
    SealedFacts(hp, subs, plan);
    assert PadLeaf(subs[1], Sib(p.li)) == subs[1][1];
    SingleComputes(hp, subs, plan, p, raw, out);
    TwoRoots(hp, subs);
    SecondVanishes(hps);
    hide Sealed, HoldsOne, Finished, ComputeRoot, Root, Roots, Shr, Fold, IsPow2;
    FoldSnoc(hp, ProofOf(hp, subs[1], 0), Root(hp, subs[0]), hps, 0, subs[1][0]);
    assert TwoTierProof(hp, subs, p) == ProofOf(hp, subs[1], 0) + [Root(hp, subs[0])];
  }

  // ---- A block of distinct txids for which it fails --------------------------------------------------

  function Right(l: Hash, r: Hash): Hash {
    r
  }

  lemma DoubleHalf(i: nat, p: nat)
    requires p > 0
    ensures (2 * i + 1 + 1) * p == (i + 1) * (2 * p) >= 1
  {}

  /** Under the right projection a node is the last leaf below it. */
  lemma {:induction false} RightNode(leaves: seq<Hash>, k: nat, i: nat)
    requires |leaves| > 0
    ensures (i + 1) * Pow2(k) >= 1
    ensures Node(Right, leaves, k, i) == PadLeaf(leaves, (i + 1) * Pow2(k) - 1)
  {
    if k > 0 {
      RightNode(leaves, k - 1, 2 * i + 1);
      DoubleHalf(i, Pow2(k - 1));
    }
  }

  lemma RightRoot(leaves: seq<Hash>)
    requires |leaves| > 0
    ensures Root(Right, leaves) == leaves[|leaves| - 1]
  {
    Log2Bounds(|leaves|);
    RightNode(leaves, Log2(|leaves|), 0);
  }

  /** The hash that holds a number in its bytes. */
  function NumberHash(n: nat): Hash {
    Hash(LE(n, HASH_SIZE))
  }

  lemma {:induction false} Pow256Monotone(a: nat, b: nat)
    requires a <= b
    ensures Pow256(a) <= Pow256(b)
  {
    if a < b { Pow256Monotone(a, b - 1); }
  }

  lemma WideEnough()
    ensures U64 <= Pow256(HASH_SIZE)
  {
    Widths();
    Pow256Monotone(8, HASH_SIZE);
  }

  lemma NumberHashInjective(a: nat, b: nat)
    requires a < U64 && b < U64 && NumberHash(a) == NumberHash(b)
    ensures a == b
  {
    WideEnough();
    FromOfLE(a, HASH_SIZE);
    FromOfLE(b, HASH_SIZE);
  }

  function NumberedBlock(hps: nat): seq<seq<Hash>> {
    [seq(hps, i requires i >= 0 => NumberHash(i)), seq(hps, i requires i >= 0 => NumberHash(hps + i))]
  }

  lemma NumberedDistinct(hps: nat)
    requires 2 * hps <= U64
    ensures DistinctLeaves(NumberedBlock(hps))
  {
    var subs := NumberedBlock(hps);
    hide NumberHash;
    forall i, a, j, b | 0 <= i < |subs| && 0 <= a < |subs[i]| && 0 <= j < |subs| && 0 <= b < |subs[j]| &&
        subs[i][a] == subs[j][b]
      ensures i == j && a == b
    {
      NumberHashInjective(i * hps + a, j * hps + b);
    }
  }

  // Every path can be finished, and every position has the raw paths and the fragment it calls for.

  function InsertEntry(e: Entry, lev: Level): (r: Level)
    ensures multiset(r) == multiset(lev) + multiset{e}
  {
    if lev == [] || e.offset <= lev[0].offset then [e] + lev
    else
      assert lev == [lev[0]] + lev[1..];
      [lev[0]] + InsertEntry(e, lev[1..])
  }

  lemma {:induction false} InsertSorted(e: Entry, lev: Level)
    requires Sorted(lev)
    ensures Sorted(InsertEntry(e, lev))
  {
    if lev != [] && e.offset > lev[0].offset {
      InsertSorted(e, lev[1..]);
      var rest := InsertEntry(e, lev[1..]);
      forall i | 0 <= i < |rest|
        ensures lev[0].offset <= rest[i].offset
      {
        assert rest[i] in multiset(rest);
      }
    }
  }

  function SortedLevel(lev: Level): (r: Level)
    ensures multiset(r) == multiset(lev)
  {
    if lev == [] then []
    else
      assert lev == [lev[0]] + lev[1..];
      InsertEntry(lev[0], SortedLevel(lev[1..]))
  }

  lemma {:induction false} SortedLevelSorts(lev: Level)
    ensures SortOf(lev, SortedLevel(lev))
  {
    if lev != [] {
      SortedLevelSorts(lev[1..]);
      InsertSorted(lev[0], SortedLevel(lev[1..]));
    }
  }

  lemma CanFinish(raw: Path) returns (out: Path)
    ensures Finished(raw, out)
  {
    out := seq(|raw|, h requires 0 <= h < |raw| => SortedLevel(Kept(raw, h, |raw[h]|)));
    forall h | 0 <= h < |raw|
      ensures SortOf(Kept(raw, h, |raw[h]|), out[h])
    {
      SortedLevelSorts(Kept(raw, h, |raw[h]|));
    }
  }

  lemma CanAssemble(plan: Plan, order: seq<Pos>) returns (raw: Path)
    requires ValidPlan(plan) && ValidPositions(plan, order)
    ensures RawPath(plan, order, raw)
  {
    var n := plan.height + plan.topHeight;
    raw := seq(n, k requires 0 <= k < n => LevelIsReadable(plan, order, k); RawLevel(plan, order, k));
    forall k | 0 <= k < n
      ensures LevelReadable(plan, order, k) && raw[k] == RawLevel(plan, order, k)
    {
      LevelIsReadable(plan, order, k);
    }
  }

  /** A plan within the limits has a valid one-leaf piece, its stored form and the path assembled from it. */
  lemma CanExtract(plan: Plan, p: Pos) returns (levels: seq<Level>)
    requires ValidPlan(plan) && ValidPositions(plan, [p]) && p.si in plan.subtrees
    ensures ValidPiece(plan, OnePiece(p))
    ensures Extracted(plan.hps, plan.height, p.si, plan.subtrees[p.si], [p.li], levels)
  {
    assert [p][0] == p;
    var own, ps := SubtreePlan(plan.hps, plan.height, p.si, plan.subtrees[p.si]), [p];
    assert Positions(plan.hps, p.si, [p.li]) == [p];
    assert ValidPlan(own);
    assert forall k :: 0 <= k < plan.height ==> AllReadable(own, k, ps);
    levels := seq(plan.height, k requires 0 <= k < plan.height => SortedLevel(Emitted(Local, own, k, ps)));
    hide Emitted, ValidPlan, AllReadable;
    forall k | 0 <= k < plan.height
      ensures SortOf(Emitted(Local, own, k, ps), levels[k])
    {
      SortedLevelSorts(Emitted(Local, own, k, ps));
    }
  }

  lemma CanJoin(plan: Plan, p: Pos, levels: seq<Level>) returns (raw: Path)
    requires ValidPlan(plan) && ValidPositions(plan, [p]) && ValidPiece(plan, OnePiece(p)) && ValidPos(plan.hps, p)
    requires Extracted(plan.hps, plan.height, p.si, plan.subtrees[p.si], [p.li], levels) && 0 < plan.height
    ensures RawFromFragments(plan, [levels], raw)
  {
    var n := plan.height + plan.topHeight;
    OneRawTxid(plan, p, levels);
    forall k | plan.height <= k < n
      ensures AllReadable(plan, k, [p])
    {
      assert [p][0] == p;
    }
    raw := seq(n, k requires 0 <= k < n =>
      if k < plan.height then Joined([levels], plan.height, k) else Emitted(Local, plan, k, [p]));
    hide Emitted, ValidPlan, Joined, TxidPositions, Extracted, AllReadable;
  }

  // ---- The two conditions ------------------------------------------------------------------------------

  /** Two subtrees of this size have global indices within the source's int. */
  ghost predicate SizeFits(hps: nat) {
    2 <= hps && 2 * hps <= 0x8000_0000_0000_0000
  }

  lemma Pow2Of16()
    ensures Pow2(16) == 0x1_0000
  {
    assert Pow2(8) == 256 by { assert Pow2(4) == 16; }
    Pow2Add(8, 8);
  }

  lemma Pow2Of64()
    ensures Pow2(64) == U64
  {
    hide Pow2;
    Pow2Of16();
    Pow2Add(16, 16);
    Pow2Add(32, 32);
  }

  lemma SmallHeight(hps: nat)
    requires SizeFits(hps)
    ensures Log2(hps) + Log2(2) < 256
  {
    assert Log2(2) == 1;
    hide Pow2, Log2;
    Pow2Of64();
    Log2Bounds(hps);
    if Log2(hps) > 64 { Pow2Monotone(64, Log2(hps) - 1); }
  }

  lemma NumberedFacts(hps: nat) returns (plan: Plan)
    requires SizeFits(hps)
    ensures plan.hps == hps && Sealed(Right, NumberedBlock(hps), plan) && ValidPlan(plan) && 1 in plan.subtrees
    ensures ValidPositions(plan, [SecondFirst(hps)]) && ValidPos(hps, SecondFirst(hps))
    ensures DistinctLeaves(NumberedBlock(hps)) && WithinLimits(plan, 2) && |plan.topProofs| == 2
  {
    plan := TwoPlan(Right, NumberedBlock(hps));
    TwoPlanSealed(Right, NumberedBlock(hps));
    NumberedDistinct(hps);
    SmallHeight(hps);
  }

  lemma NumberedLeaves(hps: nat)
    requires SizeFits(hps)
    ensures var subs := NumberedBlock(hps);
      && |subs| == 2 && |subs[0]| == |subs[1]| == hps
      && subs[1][0] != subs[1][1] && subs[0][hps - 1] != subs[1][hps - 1]
  {
    var subs := NumberedBlock(hps);
    NumberedDistinct(hps);
    hide NumberHash;
    assert subs[1][0] != subs[1][1];
  }

  lemma RightPair(a: Hash, b: Hash, c: Hash, d: Hash)
    ensures Right(a, b) == Right(c, d) <==> b == d
  {}

  lemma NumberedFails(hps: nat, plan: Plan, raw: Path, out: Path)
    requires SizeFits(hps) && !IsPow2(hps) && plan.hps == hps
    requires Sealed(Right, NumberedBlock(hps), plan) && HoldsOne(plan, SecondFirst(hps), raw) && Finished(raw, out)
    ensures !Proves(Right, NumberedBlock(hps), out, 1, 0)
  {
    var subs := NumberedBlock(hps);
    NumberedLeaves(hps);
    hide *;
    SecondFirstComputes(Right, subs, plan, raw, out);
    RightRoot(subs[0]);
    RightRoot(subs[1]);
    RightPair(Misfolded(Right, subs, hps), Root(Right, subs[0]), Root(Right, subs[0]), Root(Right, subs[1]));
  }

  lemma JitRefuted(hp: HashFn, subs: seq<seq<Hash>>, plan: Plan, p: Pos, raw: Path, out: Path)
    requires DistinctLeaves(subs) && Sealed(hp, subs, plan) && ValidPositions(plan, [p]) && p.si in plan.subtrees
    requires RawPath(plan, [p], raw) && Finished(raw, out) && !Proves(hp, subs, out, p.si, p.li)
    ensures !JitAlwaysProves(plan.hps)
  {
    var order := [p];
    assert order[0] == p;
    hide DistinctLeaves, Sealed, ValidPositions, RawPath, Finished, Proves;
    assert !JitProves(hp, subs, plan, order, raw, out);
  }

  lemma OtherSizeFailsJit(hps: nat)
    requires SizeFits(hps) && !IsPow2(hps)
    ensures !JitAlwaysProves(hps)
  {
    var p := SecondFirst(hps);
    assert p.si == 1 && p.li == 0;
    hide *;
    var plan := NumberedFacts(hps);
    var raw := CanAssemble(plan, [p]);
    JitHoldsOne(plan, p, raw);
    var out := CanFinish(raw);
    NumberedFails(hps, plan, raw, out);
    JitRefuted(Right, NumberedBlock(hps), plan, p, raw, out);
  }

  lemma StoredOne(plan: Plan, p: Pos, levels: seq<Level>)
    requires ValidPlan(plan) && ValidPos(plan.hps, p) && ValidPiece(plan, OnePiece(p))
    requires WithinLimits(plan, |plan.topProofs|)
    requires Extracted(plan.hps, plan.height, p.si, plan.subtrees[p.si], [p.li], levels)
    ensures StoredPieces(plan, [OnePiece(p)], [FragmentBytes(levels)])
    ensures AllParse([FragmentBytes(levels)]) && Parsed([FragmentBytes(levels)]) == [levels]
  {
    OnePieceReads(plan, p, levels);
    assert StoredPiece(plan, OnePiece(p), FragmentBytes(levels));
    hide Parse, FragmentBytes, Extracted, ValidPlan, WithinLimits, ValidPiece, StoredPiece;
  }

  lemma FragmentsRefuted(hp: HashFn, subs: seq<seq<Hash>>, plan: Plan, p: Pos, data: seq<Data>, raw: Path, out: Path)
    requires DistinctLeaves(subs) && Sealed(hp, subs, plan) && WithinLimits(plan, |subs|)
    requires StoredPieces(plan, [OnePiece(p)], data) && AllParse(data)
    requires RawFromFragments(plan, Parsed(data), raw) && Finished(raw, out) && !Proves(hp, subs, out, p.si, p.li)
    ensures !FragmentsAlwaysProve(plan.hps)
  {
    var pieces := [OnePiece(p)];
    assert pieces[0].si == p.si && pieces[0].order[0] == p.li && |pieces[0].order| == 1;
    hide DistinctLeaves, Sealed, StoredPieces, RawFromFragments, Finished, Proves, WithinLimits, AllParse, Parsed,
      OnePiece;
    assert !FragmentsProve(hp, subs, plan, pieces, data, raw, out);
  }

  lemma OtherSizeFailsFragments(hps: nat)
    requires SizeFits(hps) && !IsPow2(hps)
    ensures !FragmentsAlwaysProve(hps)
  {
    var p := SecondFirst(hps);
    assert p.si == 1 && p.li == 0;
    hide *;
    var plan := NumberedFacts(hps);
    SealedFacts(Right, NumberedBlock(hps), plan);
    var levels := CanExtract(plan, p);
    var raw := CanJoin(plan, p, levels);
    var out := CanFinish(raw);
    StoredOne(plan, p, levels);
    RawHoldsOne(plan, p, levels, raw);
    NumberedFails(hps, plan, raw, out);
    FragmentsRefuted(Right, NumberedBlock(hps), plan, p, [FragmentBytes(levels)], raw, out);
  }

  /**
    The condition a caller can check: both assemblies prove every txid of every block of distinct txids exactly
    when the subtree size is a power of two.
   */
  lemma ValidIffPowerOfTwo(hps: nat)
    requires SizeFits(hps)
    ensures JitAlwaysProves(hps) <==> IsPow2(hps)
    ensures FragmentsAlwaysProve(hps) <==> IsPow2(hps)
  {
    if IsPow2(hps) {
      forall hp: HashFn, subs: seq<seq<Hash>>, plan: Plan, order: seq<Pos>, raw: Path, out: Path |
          plan.hps == hps && DistinctLeaves(subs)
        ensures JitProves(hp, subs, plan, order, raw, out)
      {
        PowerOfTwoJit(hp, subs, plan, order, raw, out);
      }
      forall hp: HashFn, subs: seq<seq<Hash>>, plan: Plan, pieces: seq<Piece>, data: seq<Data>, raw: Path, out: Path |
          plan.hps == hps && DistinctLeaves(subs)
        ensures FragmentsProve(hp, subs, plan, pieces, data, raw, out)
      {
        PowerOfTwoFragments(hp, subs, plan, pieces, data, raw, out);
      }
    } else {
      OtherSizeFailsJit(hps);
      OtherSizeFailsFragments(hps);
    }
    hide JitProves, FragmentsProve, DistinctLeaves, IsPow2;
  }
}
