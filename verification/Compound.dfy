/**
  The assemblies against the tree: both the just-in-time path and the fragment path produce, for a power-of-two
  subtree size, the canonical path of the leaves they were given, and therefore valid and agreeing proofs.
 */
module Compound {
  import opened Arith
  import opened Hashes
  import opened Bytes
  import opened Tree
  import opened Block
  import opened Bump
  import opened BumpCodec
  import opened FragmentCodec
  import opened Emit
  import opened Canon
  import opened Validity
  import opened Jit
  import opened Fragments
  import opened Sorting

  // ---- Positions and owned leaves ------------------------------------------------------------------

  /** Distinct positions in global order have strictly increasing global indices. */
  lemma DistinctIncreasing(plan: Plan, ps: seq<Pos>)
    requires ValidPositions(plan, ps) && Ordered(ps) && NoRepeats(ps)
    ensures Increasing(ps)
  {
    forall i, j | 0 <= i < j < |ps|
      ensures ps[i].g < ps[j].g
    {
      if ps[i].g == ps[j].g {
        SplitUnique(ps[i].si, ps[i].li, ps[j].si, ps[j].li, plan.hps);
      }
    }
  }

  lemma {:induction false} LoadedIncreasing(plan: Plan, ps: seq<Pos>)
    requires Increasing(ps)
    ensures Increasing(Loaded(plan, ps))
  {
    if ps != [] {
      var init := ps[..|ps| - 1];
      LoadedIncreasing(plan, init);
      forall i | 0 <= i < |Loaded(plan, init)|
        ensures Loaded(plan, init)[i].g < ps[|ps| - 1].g
      {
        LoadedMember(plan, init, Loaded(plan, init)[i]);
      }
    }
  }

  lemma LoadedGlobals(plan: Plan, ps: seq<Pos>)
    ensures Globals(Loaded(plan, ps)) <= Globals(ps)
  {
    forall g | g in Globals(Loaded(plan, ps))
      ensures g in Globals(ps)
    {
      var i :| 0 <= i < |Loaded(plan, ps)| && Loaded(plan, ps)[i].g == g;
      LoadedMember(plan, ps, Loaded(plan, ps)[i]);
    }
  }

  lemma GlobalsInBlock(hp: HashFn, subs: seq<seq<Hash>>, plan: Plan, ps: seq<Pos>)
    requires Genuine(hp, subs, plan) && ValidPositions(plan, ps)
    ensures forall g :: g in Globals(ps) ==> g < |subs| * Pow2(plan.height)
  {
    GenuineFacts(hp, subs, plan);
    forall g | g in Globals(ps)
      ensures g < |subs| * Pow2(plan.height)
    {
      var i :| 0 <= i < |ps| && ps[i].g == g;
      MulStep(ps[i].si, |subs|, Pow2(plan.height));
    }
  }

  // ---- The just-in-time path -----------------------------------------------------------------------

  lemma JitCanonical(hp: HashFn, subs: seq<seq<Hash>>, plan: Plan, order: seq<Pos>, raw: Path)
    requires Genuine(hp, subs, plan) && ValidPositions(plan, order) && Increasing(order)
    requires RawPath(plan, order, raw)
    ensures CanonicalPath(hp, subs, plan.height, Globals(Loaded(plan, order)), Globals(order), raw)
  {
    var lo, hi := Globals(Loaded(plan, order)), Globals(order);
    GenuineFacts(hp, subs, plan);
    LoadedGlobals(plan, order);
    GlobalsInBlock(hp, subs, plan, order);
    LoadedIncreasing(plan, order);
    forall k | 0 <= k < |raw|
      ensures Canonical(hp, subs, plan.height, if k < plan.height then lo else hi, k, raw[k])
    {
      LevelIsReadable(plan, order, k);
      EmittedCanonical(Local, hp, subs, plan, k, if k < plan.height then Loaded(plan, order) else order);
    }
  }

  /** Limits of the source's integer types: one byte of tree height, int global indices. */
  ghost predicate WithinLimits(plan: Plan, count: nat) {
    && plan.height + plan.topHeight < 256
    && count * plan.hps <= 0x8000_0000_0000_0000
  }

  lemma {:induction false} ShrShrinks(x: nat, k: nat)
    ensures Shr(x, k) <= x
  {
    if k > 0 { ShrShrinks(x, k - 1); }
  }

  lemma SibWithin(x: nat)
    ensures x <= Sib(x) + 1
  {}

  lemma EntryBelow(hp: HashFn, subs: seq<seq<Hash>>, height: nat, owned: set<nat>, k: nat, e: Entry, bound: nat)
    requires Uniform(subs, height) && InLevel(hp, subs, height, owned, k, e)
    requires forall g :: g in owned ==> g < bound
    ensures e.offset <= bound
  {
    SibWithin(e.offset);
    if k > 0 {
      var g :| g in owned && Shr(g, k) == Sib(e.offset);
      ShrShrinks(g, k);
    }
  }

  lemma PathFits(hp: HashFn, subs: seq<seq<Hash>>, height: nat, lo: set<nat>, hi: set<nat>, raw: Path, out: Path)
    requires CanonicalPath(hp, subs, height, lo, hi, raw) && Finished(raw, out)
    requires |subs| * Pow2(height) <= 0x8000_0000_0000_0000
    ensures OffsetsFit(out)
  {
    forall k, i | 0 <= k < |out| && 0 <= i < |out[k]|
      ensures out[k][i].offset < U64
    {
      var e := out[k][i];
      FinishedEntry(raw, out, k, e);
      var owned := if k < height then lo else hi;
      assert InLevel(hp, subs, height, owned, k, e);
      EntryBelow(hp, subs, height, owned, k, e, |subs| * Pow2(height));
    }
  }

  lemma {:induction false} EmittedSize(keying: Keying, plan: Plan, k: nat, ps: seq<Pos>)
    requires ValidPlan(plan) && AllReadable(plan, k, ps)
    ensures |Emitted(keying, plan, k, ps)| <= 2 * |ps|
    ensures k > 0 ==> |Emitted(keying, plan, k, ps)| <= |ps|
  {
    if ps != [] {
      assert Readable(plan, k, ps[|ps| - 1]);
      EmittedSize(keying, plan, k, ps[..|ps| - 1]);
    }
  }

  lemma {:induction false} LoadedSize(plan: Plan, ps: seq<Pos>)
    ensures |Loaded(plan, ps)| <= |ps|
  {
    if ps != [] { LoadedSize(plan, ps[..|ps| - 1]); }
  }

  lemma {:induction false} KeptSize(path: Path, h: nat, n: nat)
    requires h < |path| && n <= |path[h]|
    ensures |Kept(path, h, n)| <= n
  {
    if n > 0 { KeptSize(path, h, n - 1); }
  }

  lemma FinishedSize(raw: Path, out: Path, h: nat)
    requires Finished(raw, out) && h < |raw|
    ensures |out[h]| <= |raw[h]|
  {
    var kept := Kept(raw, h, |raw[h]|);
    KeptSize(raw, h, |raw[h]|);
    assert SortOf(kept, out[h]);
    assert |out[h]| == |multiset(out[h])| == |multiset(kept)| == |kept|;
  }

  lemma JitLengths(plan: Plan, order: seq<Pos>, raw: Path, out: Path)
    requires ValidPositions(plan, order) && RawPath(plan, order, raw) && Finished(raw, out)
    requires 2 * |order| < U64
    ensures LengthsFit(out)
  {
    LoadedSize(plan, order);
    forall k | 0 <= k < |out|
      ensures |out[k]| < U64
    {
      LevelIsReadable(plan, order, k);
      EmittedSize(Local, plan, k, if k < plan.height then Loaded(plan, order) else order);
      FinishedSize(raw, out, k);
    }
  }

  lemma LimitFacts(plan: Plan, count: nat)
    requires WithinLimits(plan, count)
    ensures count * plan.hps <= 0x8000_0000_0000_0000 < U64
  {}

  lemma PositionFacts(plan: Plan, order: seq<Pos>, i: nat)
    requires ValidPositions(plan, order) && i < |order| && order[i].si in plan.subtrees
    ensures ValidPos(plan.hps, order[i]) && order[i].si < |plan.topProofs|
    ensures order[i].g in Globals(Loaded(plan, order))
  {
    LoadedMember(plan, order, order[i]);
    var j :| 0 <= j < |Loaded(plan, order)| && Loaded(plan, order)[j] == order[i];
  }

  lemma GlobalsMember(plan: Plan, order: seq<Pos>, g: nat)
    requires g in Globals(Loaded(plan, order))
    ensures exists i :: 0 <= i < |order| && order[i].g == g
  {
    LoadedGlobals(plan, order);
    assert g in Globals(order);
  }

  lemma OwnedLeaf(hp: HashFn, subs: seq<seq<Hash>>, plan: Plan, p: Pos)
    requires Genuine(hp, subs, plan) && ValidPos(plan.hps, p) && p.si < |subs|
    ensures Uniform(subs, plan.height) && p.li < |subs[p.si]|
    ensures LeafAt(subs, plan.height, p.g) == subs[p.si][p.li]
  {
    GenuineFacts(hp, subs, plan);
    DivModSplit(p.si, p.li, Pow2(plan.height));
  }

  /**
    End to end for the just-in-time path. From the bytes it returns a reader recovers the whole path, and for
    every requested txid whose subtree was loaded that path computes the root of the top tree.
   */
  lemma JitEndToEnd(hp: HashFn, subs: seq<seq<Hash>>, plan: Plan, order: seq<Pos>, blockHeight: nat, out: Path, bytes: Data)
    requires Genuine(hp, subs, plan) && WithinLimits(plan, |subs|) && blockHeight < U32
    requires ValidPositions(plan, order) && Increasing(order)
    requires Assembled(plan, order, blockHeight, out, bytes) && 2 * |order| < U64
    ensures ReadBump(bytes) == Some((blockHeight, PathListed(out), []))
    ensures |out| > 0
    ensures forall i :: 0 <= i < |order| && order[i].si in plan.subtrees ==>
      && Entry(order[i].g, subs[order[i].si][order[i].li], true) in out[0]
      && ComputeRoot(hp, out, subs[order[i].si][order[i].li]) == Some(Root(hp, Roots(hp, subs)))
    ensures forall e :: e in out[0] && e.txid ==> exists i :: 0 <= i < |order| && order[i].g == e.offset
  {
    var raw :| RawPath(plan, order, raw) && Finished(raw, out);
    var lo, hi := Globals(Loaded(plan, order)), Globals(order);
    GenuineFacts(hp, subs, plan);
    JitCanonical(hp, subs, plan, order, raw);
    assert bytes == BumpBytes(blockHeight, out) && |out| == |raw| < 256;
    hide *;
    EndToEnd(hp, subs, plan.height, lo, hi, raw, out);
    LimitFacts(plan, |subs|);
    PathFits(hp, subs, plan.height, lo, hi, raw, out);
    JitLengths(plan, order, raw, out);
    BumpRoundTrip(blockHeight, out);
    forall i | 0 <= i < |order| && order[i].si in plan.subtrees
      ensures order[i].si < |subs| && order[i].li < |subs[order[i].si]|
      ensures Entry(order[i].g, subs[order[i].si][order[i].li], true) in out[0]
      ensures ComputeRoot(hp, out, subs[order[i].si][order[i].li]) == Some(Root(hp, Roots(hp, subs)))
    {
      PositionFacts(plan, order, i);
      OwnedLeaf(hp, subs, plan, order[i]);
      assert Entry(order[i].g, subs[order[i].si][order[i].li], true) in out[0];
    }
    forall e | e in out[0] && e.txid
      ensures exists i :: 0 <= i < |order| && order[i].g == e.offset
    {
      GlobalsMember(plan, order, e.offset);
    }
  }

  // ---- The fragment path ---------------------------------------------------------------------------

  /** One stored fragment of a token: its subtree and the ascending local indices it was extracted for. */
  datatype Piece = Piece(si: nat, order: seq<nat>)

  /** The last condition keeps entry counts within the four bytes the stored form has for them. */
  ghost predicate ValidPiece(plan: Plan, p: Piece) {
    && p.si in plan.subtrees && p.si < |plan.topProofs|
    && InSubtree(plan.hps, p.order) && Ascending(p.order) && NoRepeats(p.order)
    && 2 * |p.order| < U32
  }

  /** data is a marshalled extraction of the piece. */
  ghost predicate StoredPiece(plan: Plan, p: Piece, data: Data)
    requires ValidPlan(plan) && ValidPiece(plan, p)
  {
    exists levels :: Extracted(plan.hps, plan.height, p.si, plan.subtrees[p.si], p.order, levels) && data == FragmentBytes(levels)
  }

  ghost function PiecePositions(plan: Plan, p: Piece): seq<Pos> {
    Positions(plan.hps, p.si, p.order)
  }

  ghost predicate DistinctSubtrees(pieces: seq<Piece>) {
    forall i, j :: 0 <= i < j < |pieces| ==> pieces[i].si != pieces[j].si
  }

  ghost predicate StoredPieces(plan: Plan, pieces: seq<Piece>, data: seq<Data>) {
    && ValidPlan(plan) && |data| == |pieces| && DistinctSubtrees(pieces)
    && (forall i :: 0 <= i < |pieces| ==> ValidPiece(plan, pieces[i]) && StoredPiece(plan, pieces[i], data[i]))
  }

  /** The leaves the loaded pieces own; a piece that failed to load is simply not in the list. */
  ghost function OwnedBy(plan: Plan, pieces: seq<Piece>): set<nat> {
    if pieces == [] then {}
    else OwnedBy(plan, pieces[..|pieces| - 1]) + Globals(PiecePositions(plan, pieces[|pieces| - 1]))
  }

  // One plan or the other, a run of one subtree emits the same at the subtree levels.

  lemma {:induction false} SamePlanEmits(a: Plan, b: Plan, k: nat, ps: seq<Pos>, si: nat)
    requires ValidPlan(a) && ValidPlan(b) && a.hps == b.hps && a.height == b.height && k < a.height
    requires si in a.subtrees && si in b.subtrees && a.subtrees[si] == b.subtrees[si]
    requires forall i :: 0 <= i < |ps| ==> ps[i].si == si
    requires AllReadable(a, k, ps)
    ensures AllReadable(b, k, ps)
    ensures Emitted(Local, a, k, ps) == Emitted(Local, b, k, ps)
  {
    if ps != [] {
      var init, p := ps[..|ps| - 1], ps[|ps| - 1];
      assert Readable(a, k, p);
      SamePlanEmits(a, b, k, init, si);
      assert Step(Local, a, k, init, p) == Step(Local, b, k, init, p);
    }
  }

  lemma PositionsIncreasing(hps: nat, si: nat, order: seq<nat>)
    requires Ascending(order) && NoRepeats(order)
    ensures Increasing(Positions(hps, si, order))
  {}

  lemma SortOfCanonical(hp: HashFn, subs: seq<seq<Hash>>, height: nat, owned: set<nat>, k: nat, a: Level, b: Level)
    requires Uniform(subs, height) && Canonical(hp, subs, height, owned, k, a) && SortOf(a, b)
    ensures Canonical(hp, subs, height, owned, k, b)
  {
    PermutationNoRepeats(a, b);
    forall e: Entry
      ensures e in b <==> InLevel(hp, subs, height, owned, k, e)
    {
      PermutationMember(a, b, e);
      assert e in a <==> InLevel(hp, subs, height, owned, k, e);
    }
  }

  /** An extracted fragment holds the canonical levels of its own leaves. */
  lemma PieceCanonical(hp: HashFn, subs: seq<seq<Hash>>, plan: Plan, p: Piece, levels: seq<Level>, k: nat)
    requires Genuine(hp, subs, plan) && ValidPlan(plan) && ValidPiece(plan, p) && k < plan.height
    requires Extracted(plan.hps, plan.height, p.si, plan.subtrees[p.si], p.order, levels)
    ensures Uniform(subs, plan.height)
    ensures Canonical(hp, subs, plan.height, Globals(PiecePositions(plan, p)), k, levels[k])
  {
    var own, ps := SubtreePlan(plan.hps, plan.height, p.si, plan.subtrees[p.si]), PiecePositions(plan, p);
    GenuineFacts(hp, subs, plan);
    assert AllReadable(own, k, ps) && SortOf(Emitted(Local, own, k, ps), levels[k]);
    SamePlanEmits(own, plan, k, ps, p.si);
    PositionsIncreasing(plan.hps, p.si, p.order);
    hide Extracted, Genuine, Canonical, Emitted;
    EmittedCanonical(Local, hp, subs, plan, k, ps);
    SortOfCanonical(hp, subs, plan.height, Globals(ps), k, Emitted(Local, plan, k, ps), levels[k]);
  }

  // ---- A stored piece parses back ------------------------------------------------------------------

  lemma SortOfSize(a: Level, b: Level)
    requires SortOf(a, b)
    ensures |a| == |b|
  {
    assert |a| == |multiset(a)| && |b| == |multiset(b)|;
  }

  lemma CanonicalOffsets(hp: HashFn, subs: seq<seq<Hash>>, height: nat, owned: set<nat>, k: nat, lev: Level, bound: nat)
    requires Uniform(subs, height) && Canonical(hp, subs, height, owned, k, lev) && bound < U64
    requires forall g :: g in owned ==> g < bound
    ensures forall i :: 0 <= i < |lev| ==> lev[i].offset < U64
  {
    forall i | 0 <= i < |lev|
      ensures lev[i].offset < U64
    {
      assert lev[i] in lev;
      EntryBelow(hp, subs, height, owned, k, lev[i], bound);
    }
  }

  lemma PieceValidPositions(plan: Plan, p: Piece)
    requires ValidPiece(plan, p)
    ensures ValidPositions(plan, PiecePositions(plan, p))
  {}

  ghost predicate LevelFits(lev: Level) {
    |lev| < U32 && forall i :: 0 <= i < |lev| ==> lev[i].offset < U64
  }

  lemma PieceLevel(plan: Plan, p: Piece, levels: seq<Level>, k: nat)
    requires ValidPlan(plan) && ValidPiece(plan, p) && k < plan.height
    requires Extracted(plan.hps, plan.height, p.si, plan.subtrees[p.si], p.order, levels)
    ensures var own, ps := SubtreePlan(plan.hps, plan.height, p.si, plan.subtrees[p.si]), PiecePositions(plan, p);
      && ValidPlan(own) && AllReadable(own, k, ps)
      && k < |levels| && SortOf(Emitted(Local, own, k, ps), levels[k]) && 2 * |ps| < U32
  {}

  lemma PieceCounts(plan: Plan, p: Piece, levels: seq<Level>, k: nat)
    requires ValidPlan(plan) && ValidPiece(plan, p) && k < plan.height
    requires Extracted(plan.hps, plan.height, p.si, plan.subtrees[p.si], p.order, levels)
    ensures k < |levels| && |levels[k]| < U32
  {
    assert p.si in plan.subtrees;
    hide *;
    PieceLevel(plan, p, levels, k);
    var own, ps := SubtreePlan(plan.hps, plan.height, p.si, plan.subtrees[p.si]), PiecePositions(plan, p);
    EmittedSize(Local, own, k, ps);
    SortOfSize(Emitted(Local, own, k, ps), levels[k]);
  }

  lemma PieceOffsets(hp: HashFn, subs: seq<seq<Hash>>, plan: Plan, p: Piece, levels: seq<Level>, k: nat)
    requires Genuine(hp, subs, plan) && ValidPlan(plan) && ValidPiece(plan, p) && WithinLimits(plan, |subs|)
    requires Extracted(plan.hps, plan.height, p.si, plan.subtrees[p.si], p.order, levels) && k < plan.height == |levels|
    ensures forall i :: 0 <= i < |levels[k]| ==> levels[k][i].offset < U64
  {
    hide *;
    GenuineFacts(hp, subs, plan);
    LimitFacts(plan, |subs|);
    PieceValidPositions(plan, p);
    GlobalsInBlock(hp, subs, plan, PiecePositions(plan, p));
    PieceCanonical(hp, subs, plan, p, levels, k);
    CanonicalOffsets(hp, subs, plan.height, Globals(PiecePositions(plan, p)), k, levels[k], |subs| * plan.hps);
  }

  lemma LevelFitsBy(lev: Level)
    requires |lev| < U32 && forall i :: 0 <= i < |lev| ==> lev[i].offset < U64
    ensures LevelFits(lev)
  {}

  lemma PieceLevelFits(hp: HashFn, subs: seq<seq<Hash>>, plan: Plan, p: Piece, levels: seq<Level>, k: nat)
    requires Genuine(hp, subs, plan) && ValidPlan(plan) && ValidPiece(plan, p) && WithinLimits(plan, |subs|)
    requires Extracted(plan.hps, plan.height, p.si, plan.subtrees[p.si], p.order, levels) && k < plan.height == |levels|
    ensures LevelFits(levels[k])
  {
    hide *;
    PieceCounts(plan, p, levels, k);
    PieceOffsets(hp, subs, plan, p, levels, k);
    LevelFitsBy(levels[k]);
  }

  lemma PieceFits(hp: HashFn, subs: seq<seq<Hash>>, plan: Plan, p: Piece, levels: seq<Level>)
    requires Genuine(hp, subs, plan) && ValidPlan(plan) && ValidPiece(plan, p) && WithinLimits(plan, |subs|)
    requires Extracted(plan.hps, plan.height, p.si, plan.subtrees[p.si], p.order, levels)
    ensures OffsetsFit(levels) && CountsFit(levels) && |levels| == plan.height
  {
    assert |levels| == plan.height;
    forall k | 0 <= k < |levels|
      ensures LevelFits(levels[k])
    {
      PieceLevelFits(hp, subs, plan, p, levels, k);
    }
  }

  /** Loading what was stored gives the extracted levels back. */
  lemma PieceParses(hp: HashFn, subs: seq<seq<Hash>>, plan: Plan, p: Piece, data: Data)
    requires Genuine(hp, subs, plan) && ValidPlan(plan) && ValidPiece(plan, p) && WithinLimits(plan, |subs|)
    requires StoredPiece(plan, p, data)
    ensures Parse(data).Success?
    ensures Extracted(plan.hps, plan.height, p.si, plan.subtrees[p.si], p.order, Parse(data).value)
  {
    var levels :| Extracted(plan.hps, plan.height, p.si, plan.subtrees[p.si], p.order, levels) && data == FragmentBytes(levels);
    PieceFits(hp, subs, plan, p, levels);
    FragmentRoundTrip(levels);
  }

  // ---- Joined fragments ----------------------------------------------------------------------------

  lemma {:induction false} OwnedByMember(plan: Plan, pieces: seq<Piece>, g: nat)
    requires forall i :: 0 <= i < |pieces| ==> ValidPiece(plan, pieces[i])
    requires g in OwnedBy(plan, pieces)
    ensures exists i :: 0 <= i < |pieces| && g in Globals(PiecePositions(plan, pieces[i]))
  {
    var init, last := pieces[..|pieces| - 1], pieces[|pieces| - 1];
    if g in Globals(PiecePositions(plan, last)) {
      assert pieces[|pieces| - 1] == last;
    } else {
      OwnedByMember(plan, init, g);
      var i :| 0 <= i < |init| && g in Globals(PiecePositions(plan, init[i]));
      assert pieces[i] == init[i];
    }
  }

  /** Shifting an owned leaf of a piece past the subtree levels gives the piece's subtree. */
  lemma PieceSubtree(hp: HashFn, subs: seq<seq<Hash>>, plan: Plan, p: Piece, g: nat)
    requires Genuine(hp, subs, plan) && ValidPiece(plan, p) && g in Globals(PiecePositions(plan, p))
    ensures Shr(g, plan.height) == p.si && g < |subs| * Pow2(plan.height) && Quot(g, plan.hps) == p.si
  {
    GenuineFacts(hp, subs, plan);
    var ps := PiecePositions(plan, p);
    PieceValidPositions(plan, p);
    GlobalsInBlock(hp, subs, plan, ps);
    var i :| 0 <= i < |ps| && ps[i].g == g;
    TopShift(p.si, plan.height, ps[i].li, 0);
    DivModSplit(p.si, ps[i].li, plan.hps);
    assert Shr(p.si, 0) == p.si;
  }

  ghost predicate Elsewhere(plan: Plan, pieces: seq<Piece>, last: Piece) {
    forall i :: 0 <= i < |pieces| ==> ValidPiece(plan, pieces[i]) && pieces[i].si != last.si
  }

  lemma PiecesApart(hp: HashFn, subs: seq<seq<Hash>>, plan: Plan, pieces: seq<Piece>, last: Piece)
    requires Genuine(hp, subs, plan) && ValidPiece(plan, last) && Elsewhere(plan, pieces, last)
    ensures forall x, y :: x in OwnedBy(plan, pieces) && y in Globals(PiecePositions(plan, last)) ==>
      Shr(x, plan.height) != Shr(y, plan.height)
  {
    forall x, y | x in OwnedBy(plan, pieces) && y in Globals(PiecePositions(plan, last))
      ensures Shr(x, plan.height) != Shr(y, plan.height)
    {
      OwnedByMember(plan, pieces, x);
      var i :| 0 <= i < |pieces| && x in Globals(PiecePositions(plan, pieces[i]));
      PieceSubtree(hp, subs, plan, pieces[i], x);
      PieceSubtree(hp, subs, plan, last, y);
    }
  }

  lemma InitPieces(plan: Plan, init: seq<Piece>, last: Piece, data: seq<Data>)
    requires StoredPieces(plan, init + [last], data)
    ensures |data| == |init| + 1
    ensures StoredPieces(plan, init, data[..|init|]) && Elsewhere(plan, init, last)
    ensures ValidPiece(plan, last) && StoredPiece(plan, last, data[|init|])
    ensures OwnedBy(plan, init + [last]) == OwnedBy(plan, init) + Globals(PiecePositions(plan, last))
  {
    var pieces := init + [last];
    assert pieces[|init|] == last && pieces[..|init|] == init;
    assert forall i :: 0 <= i < |init| ==> pieces[i] == init[i];
  }

  lemma JoinNone(hp: HashFn, subs: seq<seq<Hash>>, plan: Plan, data: seq<Data>, k: nat)
    requires StoredPieces(plan, [], data) && Uniform(subs, plan.height)
    ensures AllParse(data)
    ensures Canonical(hp, subs, plan.height, OwnedBy(plan, []), k, Joined(Parsed(data), plan.height, k))
  {
    EmptyCanonical(hp, subs, plan.height, k);
  }

  lemma JoinOne(hp: HashFn, subs: seq<seq<Hash>>, plan: Plan, init: seq<Piece>, last: Piece, data: seq<Data>, k: nat)
    requires Genuine(hp, subs, plan) && ValidPlan(plan) && WithinLimits(plan, |subs|) && k < plan.height
    requires |data| == |init| + 1 && AllParse(data[..|init|]) && Elsewhere(plan, init, last)
    requires ValidPiece(plan, last) && StoredPiece(plan, last, data[|init|])
    requires Uniform(subs, plan.height)
    requires Canonical(hp, subs, plan.height, OwnedBy(plan, init), k, Joined(Parsed(data[..|init|]), plan.height, k))
    ensures AllParse(data)
    ensures Canonical(hp, subs, plan.height, OwnedBy(plan, init) + Globals(PiecePositions(plan, last)), k,
                      Joined(Parsed(data), plan.height, k))
  {
    hide *;
    var n := |init|;
    PieceParses(hp, subs, plan, last, data[n]);
    var levels := Parse(data[n]).value;
    PieceFits(hp, subs, plan, last, levels);
    PieceCanonical(hp, subs, plan, last, levels, k);
    PiecesApart(hp, subs, plan, init, last);
    ParsedSnoc(data, n);
    assert data[..n + 1] == data;
    JoinedSnoc(Parsed(data[..n]), levels, plan.height, k);
    CanonicalAppend(hp, subs, plan.height, k, OwnedBy(plan, init), Globals(PiecePositions(plan, last)),
                    Joined(Parsed(data[..n]), plan.height, k), levels[k]);
  }

  lemma {:induction false} JoinedCanonical(hp: HashFn, subs: seq<seq<Hash>>, plan: Plan, pieces: seq<Piece>, data: seq<Data>, k: nat)
    requires Genuine(hp, subs, plan) && WithinLimits(plan, |subs|) && StoredPieces(plan, pieces, data) && k < plan.height
    ensures Uniform(subs, plan.height) && AllParse(data)
    ensures Canonical(hp, subs, plan.height, OwnedBy(plan, pieces), k, Joined(Parsed(data), plan.height, k))
    decreases |pieces|
  {
    hide *;
    GenuineFacts(hp, subs, plan);
    if pieces == [] {
      JoinNone(hp, subs, plan, data, k);
    } else {
      var init, last := pieces[..|pieces| - 1], pieces[|pieces| - 1];
      assert pieces == init + [last];
      InitPieces(plan, init, last, data);
      JoinedCanonical(hp, subs, plan, init, data[..|init|], k);
      JoinOne(hp, subs, plan, init, last, data, k);
    }
  }

  // ---- Txids of the joined level 0 -----------------------------------------------------------------

  ghost predicate FlagsTxid(lev: Level, g: nat) {
    exists e :: e in lev && e.txid && e.offset == g
  }

  lemma FlagsSnoc(lev: Level, last: Entry, g: nat)
    ensures FlagsTxid(lev + [last], g) <==> FlagsTxid(lev, g) || (last.txid && last.offset == g)
  {
    assert forall e :: e in lev + [last] <==> e in lev || e == last;
  }

  lemma NoTxids(g: nat)
    ensures g !in Globals([]) && !FlagsTxid([], g)
  {}

  lemma {:induction false} TxidGlobals(hps: nat, lev: Level, g: nat)
    requires hps > 0
    ensures g in Globals(TxidPositions(hps, lev)) <==> FlagsTxid(lev, g)
  {
    hide Quot, Rem, Globals, FlagsTxid;
    if lev == [] {
      NoTxids(g);
    } else {
      var init, last := lev[..|lev| - 1], lev[|lev| - 1];
      TxidGlobals(hps, init, g);
      assert lev == init + [last];
      FlagsSnoc(init, last, g);
      GlobalsSnoc(TxidPositions(hps, init), Pos(Quot(last.offset, hps), Rem(last.offset, hps), last.offset));
      assert TxidPositions(hps, init) + [] == TxidPositions(hps, init);
    }
  }

  lemma CanonicalTxids(hp: HashFn, subs: seq<seq<Hash>>, height: nat, hps: nat, owned: set<nat>, lev: Level)
    requires hps > 0 && Uniform(subs, height) && Canonical(hp, subs, height, owned, 0, lev)
    ensures Globals(TxidPositions(hps, lev)) == owned
  {
    forall g
      ensures g in Globals(TxidPositions(hps, lev)) <==> g in owned
    {
      TxidGlobals(hps, lev, g);
      var t := Entry(g, BlockNode(hp, subs, height, 0, g), true);
      assert t in lev <==> InLevel(hp, subs, height, owned, 0, t);
      if g in Globals(TxidPositions(hps, lev)) {
        var e :| e in lev && e.txid && e.offset == g;
        assert InLevel(hp, subs, height, owned, 0, e);
      }
    }
  }

  lemma OwnedInBlock(hp: HashFn, subs: seq<seq<Hash>>, plan: Plan, pieces: seq<Piece>, g: nat)
    requires Genuine(hp, subs, plan) && g in OwnedBy(plan, pieces)
    requires forall i :: 0 <= i < |pieces| ==> ValidPiece(plan, pieces[i])
    ensures g < |subs| * Pow2(plan.height) && Quot(g, plan.hps) < |plan.topProofs|
  {
    OwnedByMember(plan, pieces, g);
    var i :| 0 <= i < |pieces| && g in Globals(PiecePositions(plan, pieces[i]));
    PieceSubtree(hp, subs, plan, pieces[i], g);
  }

  /** Stored pieces meet what the assembly asks of its fragments. */
  lemma PiecesInBlock(hp: HashFn, subs: seq<seq<Hash>>, plan: Plan, pieces: seq<Piece>, data: seq<Data>)
    requires Genuine(hp, subs, plan) && WithinLimits(plan, |subs|) && StoredPieces(plan, pieces, data)
    ensures AllParse(data) && plan.hps > 0 && TxidsInBlock(plan, Joined(Parsed(data), plan.height, 0))
    ensures FragmentsInBlock(plan, data)
  {
    GenuineFacts(hp, subs, plan);
    JoinedCanonical(hp, subs, plan, pieces, data, 0);
    var lev := Joined(Parsed(data), plan.height, 0);
    forall i | 0 <= i < |lev| && lev[i].txid
      ensures Quot(lev[i].offset, plan.hps) < |plan.topProofs|
    {
      assert lev[i] in lev;
      assert InLevel(hp, subs, plan.height, OwnedBy(plan, pieces), 0, lev[i]);
      OwnedInBlock(hp, subs, plan, pieces, lev[i].offset);
    }
  }

  /** The fragment path assembles the canonical path of the leaves its fragments own, in whatever order they come. */
  lemma FragmentsCanonical(hp: HashFn, subs: seq<seq<Hash>>, plan: Plan, pieces: seq<Piece>, data: seq<Data>, raw: Path)
    requires Genuine(hp, subs, plan) && WithinLimits(plan, |subs|) && StoredPieces(plan, pieces, data)
    requires AllParse(data) && RawFromFragments(plan, Parsed(data), raw)
    ensures var owned := OwnedBy(plan, pieces); CanonicalPath(hp, subs, plan.height, owned, owned, raw)
  {
    var owned := OwnedBy(plan, pieces);
    GenuineFacts(hp, subs, plan);
    JoinedCanonical(hp, subs, plan, pieces, data, 0);
    var lev := Joined(Parsed(data), plan.height, 0);
    CanonicalTxids(hp, subs, plan.height, plan.hps, owned, lev);
    forall k | 0 <= k < |raw|
      ensures Canonical(hp, subs, plan.height, owned, k, raw[k])
    {
      if k < plan.height {
        JoinedCanonical(hp, subs, plan, pieces, data, k);
      } else {
        EmittedCanonical(Local, hp, subs, plan, k, TxidPositions(plan.hps, lev));
      }
    }
    forall g | g in owned
      ensures g < |subs| * Pow2(plan.height)
    {
      OwnedInBlock(hp, subs, plan, pieces, g);
    }
  }

  lemma {:induction false} JoinedSize(frags: seq<seq<Level>>, height: nat, k: nat)
    requires forall i :: 0 <= i < |frags| ==> CountsFit(frags[i])
    ensures |Joined(frags, height, k)| <= |frags| * (U32 - 1)
  {
    if frags != [] {
      JoinedSize(frags[..|frags| - 1], height, k);
      assert CountsFit(frags[|frags| - 1]);
    }
  }

  lemma {:induction false} TxidPositionsSize(hps: nat, lev: Level)
    requires hps > 0
    ensures |TxidPositions(hps, lev)| <= |lev|
  {
    if lev != [] { TxidPositionsSize(hps, lev[..|lev| - 1]); }
  }

  lemma PiecesFit(hp: HashFn, subs: seq<seq<Hash>>, plan: Plan, pieces: seq<Piece>, data: seq<Data>)
    requires Genuine(hp, subs, plan) && WithinLimits(plan, |subs|) && StoredPieces(plan, pieces, data) && AllParse(data)
    ensures |Parsed(data)| == |pieces|
    ensures forall i :: 0 <= i < |pieces| ==> CountsFit(Parsed(data)[i])
  {
    forall i | 0 <= i < |pieces|
      ensures CountsFit(Parsed(data)[i])
    {
      assert ValidPiece(plan, pieces[i]) && StoredPiece(plan, pieces[i], data[i]);
      PieceParses(hp, subs, plan, pieces[i], data[i]);
      PieceFits(hp, subs, plan, pieces[i], Parse(data[i]).value);
    }
  }

  lemma FragmentLengths(hp: HashFn, subs: seq<seq<Hash>>, plan: Plan, pieces: seq<Piece>, data: seq<Data>, raw: Path, out: Path)
    requires Genuine(hp, subs, plan) && WithinLimits(plan, |subs|) && StoredPieces(plan, pieces, data) && |pieces| < U32
    requires AllParse(data) && RawFromFragments(plan, Parsed(data), raw) && Finished(raw, out)
    ensures LengthsFit(out)
  {
    PiecesFit(hp, subs, plan, pieces, data);
    var frags := Parsed(data);
    forall k | 0 <= k < |out|
      ensures |out[k]| < U64
    {
      JoinedSize(frags, plan.height, k);
      JoinedSize(frags, plan.height, 0);
      FinishedSize(raw, out, k);
      if k >= plan.height {
        var txids := TxidPositions(plan.hps, Joined(frags, plan.height, 0));
        TxidPositionsSize(plan.hps, Joined(frags, plan.height, 0));
        EmittedSize(Local, plan, k, txids);
      }
    }
  }

  // ---- The two paths together ----------------------------------------------------------------------

  /** End to end for the fragment path: each loaded fragment's txids, and only those, are proved to the root. */
  lemma FragmentEndToEnd(hp: HashFn, subs: seq<seq<Hash>>, plan: Plan, pieces: seq<Piece>, data: seq<Data>,
                         blockHeight: nat, out: Path, bytes: Data)
    requires Genuine(hp, subs, plan) && WithinLimits(plan, |subs|) && blockHeight < U32
    requires StoredPieces(plan, pieces, data) && |pieces| < U32
    requires AssembledFromFragments(plan, data, blockHeight, out, bytes)
    ensures ReadBump(bytes) == Some((blockHeight, PathListed(out), []))
    ensures |out| > 0 && Uniform(subs, plan.height)
    ensures forall g :: g in OwnedBy(plan, pieces) ==>
      && Entry(g, LeafAt(subs, plan.height, g), true) in out[0]
      && ComputeRoot(hp, out, LeafAt(subs, plan.height, g)) == Some(Root(hp, Roots(hp, subs)))
    ensures forall e :: e in out[0] && e.txid ==> e.offset in OwnedBy(plan, pieces)
  {
    var raw :| RawFromFragments(plan, Parsed(data), raw) && Finished(raw, out);
    assert bytes == BumpBytes(blockHeight, out) && |out| == |raw| < 256;
    hide *;
    var owned := OwnedBy(plan, pieces);
    GenuineFacts(hp, subs, plan);
    LimitFacts(plan, |subs|);
    FragmentsCanonical(hp, subs, plan, pieces, data, raw);
    EndToEnd(hp, subs, plan.height, owned, owned, raw, out);
    PathFits(hp, subs, plan.height, owned, owned, raw, out);
    FragmentLengths(hp, subs, plan, pieces, data, raw, out);
    BumpRoundTrip(blockHeight, out);
    forall g | g in owned
      ensures Entry(g, LeafAt(subs, plan.height, g), true) in out[0]
      ensures ComputeRoot(hp, out, LeafAt(subs, plan.height, g)) == Some(Root(hp, Roots(hp, subs)))
    {
      assert Entry(g, LeafAt(subs, plan.height, g), true) in out[0];
    }
  }

  /**
    The fragment path refines the just-in-time path: for the same leaves, all loaded, they hold the same entries
    at every level whatever the order of the fragments, and the same bytes when no sibling pair is wholly owned.
   */
  lemma PathsAgree(hp: HashFn, subs: seq<seq<Hash>>, plan: Plan, blockHeight: nat,
                   order: seq<Pos>, jit: Path, jitBytes: Data,
                   pieces: seq<Piece>, data: seq<Data>, frag: Path, fragBytes: Data)
    requires Genuine(hp, subs, plan) && WithinLimits(plan, |subs|)
    requires ValidPositions(plan, order) && Increasing(order) && Assembled(plan, order, blockHeight, jit, jitBytes)
    requires StoredPieces(plan, pieces, data) && AssembledFromFragments(plan, data, blockHeight, frag, fragBytes)
    requires Globals(order) == Globals(Loaded(plan, order)) == OwnedBy(plan, pieces)
    ensures |jit| == |frag| && forall h :: 0 <= h < |jit| ==> multiset(jit[h]) == multiset(frag[h])
    ensures NoPairWhollyOwned(OwnedBy(plan, pieces)) ==> jit == frag && jitBytes == fragBytes
  {
    var rawJ :| RawPath(plan, order, rawJ) && Finished(rawJ, jit);
    var rawF :| RawFromFragments(plan, Parsed(data), rawF) && Finished(rawF, frag);
    assert jitBytes == BumpBytes(blockHeight, jit) && fragBytes == BumpBytes(blockHeight, frag);
    hide *;
    var owned := OwnedBy(plan, pieces);
    JitCanonical(hp, subs, plan, order, rawJ);
    FragmentsCanonical(hp, subs, plan, pieces, data, rawF);
    AssembliesAgree(hp, subs, plan.height, owned, owned, rawJ, jit, rawF, frag);
    if NoPairWhollyOwned(owned) {
      AssembliesIdentical(hp, subs, plan.height, owned, owned, rawJ, jit, rawF, frag);
    }
  }
}
