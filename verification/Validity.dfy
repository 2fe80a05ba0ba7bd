/**
  The headline results about compound paths: every listed txid hashes to the block root, the exact content
  after pruning, and the agreement of any two assemblies of the same owned leaves.
 */
module Validity {
  import opened Arith
  import opened Hashes
  import opened Tree
  import opened Block
  import opened Bump
  import opened Sorting
  import opened Canon

  /**
    The unpruned levels of a token that owns the leaves `lo` in the loaded subtrees, out of the leaves `hi`
    it was asked about: the top levels are also filled for leaves whose subtree failed to load.
   */
  ghost predicate CanonicalPath(hp: HashFn, subs: seq<seq<Hash>>, height: nat, lo: set<nat>, hi: set<nat>, raw: Path) {
    && Uniform(subs, height) && height >= 1
    && |raw| == height + Log2(|subs|)
    && lo <= hi
    && (forall g :: g in hi ==> g < |subs| * Pow2(height))
    && (forall k :: 0 <= k < |raw| ==> Canonical(hp, subs, height, if k < height then lo else hi, k, raw[k]))
  }

  lemma CanonicalLists(hp: HashFn, subs: seq<seq<Hash>>, height: nat, owned: set<nat>, k: nat, lev: Level, o: nat)
    requires Uniform(subs, height) && Canonical(hp, subs, height, owned, k, lev)
    ensures Lists(lev, o) <==> if k == 0 then o in owned || Sib(o) in owned else Owns(owned, k, Sib(o))
  {
    var plain := Entry(o, BlockNode(hp, subs, height, k, o), false);
    assert plain in lev <==> InLevel(hp, subs, height, owned, k, plain);
    if Lists(lev, o) {
      var i :| 0 <= i < |lev| && lev[i].offset == o;
      assert lev[i] in lev;
      assert InLevel(hp, subs, height, owned, k, lev[i]);
    }
    if k == 0 && o in owned {
      var t := Entry(o, BlockNode(hp, subs, height, 0, o), true);
      assert InLevel(hp, subs, height, owned, 0, t);
      assert t in lev;
    } else if plain in lev {
      var i :| 0 <= i < |lev| && lev[i] == plain;
    }
  }

  lemma CanonicalHonest(hp: HashFn, subs: seq<seq<Hash>>, height: nat, lo: set<nat>, hi: set<nat>, raw: Path)
    requires CanonicalPath(hp, subs, height, lo, hi, raw)
    ensures Honest(hp, subs, height, raw)
  {
    forall h, e | 0 <= h < |raw| && e in raw[h]
      ensures e.hash == BlockNode(hp, subs, height, h, e.offset)
    {
      assert InLevel(hp, subs, height, if h < height then lo else hi, h, e);
    }
  }

  lemma {:induction false} PairAncestor(g: nat, k: nat)
    requires k > 0
    ensures Shr(Sib(g), k) == Shr(g, k)
  {
    if k == 1 {
      ShrOne(g);
      ShrOne(Sib(g));
      SibHalf(g);
    } else {
      PairAncestor(g, k - 1);
    }
  }

  /** A leaf of an owned pair finds its sibling, and those of all its ancestors, listed before pruning. */
  lemma CanonicalCovers(hp: HashFn, subs: seq<seq<Hash>>, height: nat, lo: set<nat>, hi: set<nat>, raw: Path, g: nat)
    requires CanonicalPath(hp, subs, height, lo, hi, raw) && (g in lo || Sib(g) in lo)
    ensures Covers(raw, g)
  {
    var own := if g in lo then g else Sib(g);
    forall k | 0 <= k < |raw|
      ensures Lists(raw[k], Sib(Shr(g, k)))
    {
      SibInvolution(g);
      if k > 0 {
        PairAncestor(g, k);
        assert own in lo && own in hi;
        SibInvolution(Shr(g, k));
      }
      CanonicalLists(hp, subs, height, if k < height then lo else hi, k, raw[k], Sib(Shr(g, k)));
    }
  }

  lemma OwnedInRange(subs: seq<seq<Hash>>, height: nat, g: nat)
    requires |subs| > 0 && height >= 1 && g < |subs| * Pow2(height)
    ensures g < Pow2(height + Log2(|subs|)) && Sib(g) < Pow2(height + Log2(|subs|))
  {
    hide Sib, Pow2, Log2;
    var top := Log2(|subs|);
    Log2Bounds(|subs|);
    Pow2Add(top, height);
    if |subs| < Pow2(top) { MulStep(|subs|, Pow2(top), Pow2(height)); }
    SibBound(g, height + top);
  }

  lemma RootNode(hp: HashFn, subs: seq<seq<Hash>>, height: nat)
    requires Uniform(subs, height)
    ensures BlockRoot(hp, subs, height) == BlockNode(hp, subs, height, height + Log2(|subs|), 0)
  {}

  lemma PathFacts(hp: HashFn, subs: seq<seq<Hash>>, height: nat, lo: set<nat>, hi: set<nat>, raw: Path, g: nat)
    requires CanonicalPath(hp, subs, height, lo, hi, raw) && g in hi
    ensures Uniform(subs, height) && height >= 1 && |subs| > 0 && |raw| == height + Log2(|subs|)
    ensures g < |subs| * Pow2(height)
  {}

  /** The verifier's climb succeeds from either leaf of an owned pair. */
  lemma LeafClimbs(hp: HashFn, subs: seq<seq<Hash>>, height: nat, lo: set<nat>, hi: set<nat>, raw: Path, out: Path, o: nat)
    requires CanonicalPath(hp, subs, height, lo, hi, raw) && Finished(raw, out)
    requires o in lo || Sib(o) in lo
    ensures Uniform(subs, height)
    ensures Climb(hp, out, 0, o, BlockNode(hp, subs, height, 0, o)) == Some(BlockRoot(hp, subs, height))
  {
    var own := if o in lo then o else Sib(o);
    assert own in hi;
    SibInvolution(o);
    PathFacts(hp, subs, height, lo, hi, raw, own);
    assert Shr(o, 0) == o;
    hide *;
    OwnedInRange(subs, height, own);
    CanonicalHonest(hp, subs, height, lo, hi, raw);
    CanonicalCovers(hp, subs, height, lo, hi, raw, o);
    ClimbFrom(hp, subs, height, raw, out, o, 0);
    RootNode(hp, subs, height);
  }

  /** Every hash listed at level 0, flagged or not, computes to the block root. */
  lemma ListedComputesRoot(hp: HashFn, subs: seq<seq<Hash>>, height: nat, lo: set<nat>, hi: set<nat>,
                           raw: Path, out: Path, txid: Hash)
    requires CanonicalPath(hp, subs, height, lo, hi, raw) && Finished(raw, out) && |out| > 0
    requires exists e :: e in out[0] && e.hash == txid
    ensures ComputeRoot(hp, out, txid) == Some(BlockRoot(hp, subs, height))
  {
    FindTxidSpec(out[0], txid);
    var o := FindTxid(out[0], txid).value;
    var e :| e in out[0] && e.hash == txid && e.offset == o;
    FinishedEntry(raw, out, 0, e);
    assert InLevel(hp, subs, height, lo, 0, e);
    LeafClimbs(hp, subs, height, lo, hi, raw, out, o);
  }

  /**
    End-to-end validity. The flagged entries are exactly the loaded owned leaves with their hashes, and each
    computes to the root of the top tree over the subtree roots.
   */
  lemma EndToEnd(hp: HashFn, subs: seq<seq<Hash>>, height: nat, lo: set<nat>, hi: set<nat>, raw: Path, out: Path)
    requires CanonicalPath(hp, subs, height, lo, hi, raw) && Finished(raw, out)
    ensures |out| > 0
    ensures forall e :: e in out[0] && e.txid ==> e.offset in lo && e.hash == LeafAt(subs, height, e.offset)
    ensures forall g :: g in lo ==> Entry(g, LeafAt(subs, height, g), true) in out[0]
    ensures forall e :: e in out[0] ==> ComputeRoot(hp, out, e.hash) == Some(Root(hp, Roots(hp, subs)))
  {
    forall e | e in out[0]
      ensures e.txid ==> e.offset in lo && e.hash == LeafAt(subs, height, e.offset)
      ensures ComputeRoot(hp, out, e.hash) == Some(Root(hp, Roots(hp, subs)))
    {
      FinishedEntry(raw, out, 0, e);
      assert InLevel(hp, subs, height, lo, 0, e);
      ListedComputesRoot(hp, subs, height, lo, hi, raw, out, e.hash);
      TwoTierRoot(hp, subs, height);
    }
    forall g | g in lo
      ensures Entry(g, LeafAt(subs, height, g), true) in out[0]
    {
      var t := Entry(g, LeafAt(subs, height, g), true);
      assert InLevel(hp, subs, height, lo, 0, t);
      FinishedEntry(raw, out, 0, t);
    }
  }

  lemma SiblingsBelow(o: nat)
    ensures Sib(2 * o) == 2 * o + 1 && Sib(2 * o + 1) == 2 * o && Shr(2 * o, 1) == o
  {
    ShrOne(2 * o);
  }

  /** Both children of (k + 1, o) are listed at level k exactly when both own a leaf; at level 0, when either does. */
  lemma ChildrenListed(hp: HashFn, subs: seq<seq<Hash>>, height: nat, owned: set<nat>, k: nat, lev: Level, o: nat)
    requires Uniform(subs, height) && Canonical(hp, subs, height, owned, k, lev)
    ensures Lists(lev, 2 * o) && Lists(lev, 2 * o + 1) <==>
            if k == 0 then Owns(owned, 1, o) else Owns(owned, k, 2 * o) && Owns(owned, k, 2 * o + 1)
  {
    CanonicalLists(hp, subs, height, owned, k, lev, 2 * o);
    CanonicalLists(hp, subs, height, owned, k, lev, 2 * o + 1);
    SiblingsBelow(o);
    PairOwned(owned, 2 * o);
  }

  /** Exact content after pruning, level by level. */
  lemma ExactContent(hp: HashFn, subs: seq<seq<Hash>>, height: nat, owned: set<nat>, raw: Path, out: Path, h: nat, o: nat)
    requires CanonicalPath(hp, subs, height, owned, owned, raw) && Finished(raw, out) && h < |raw|
    ensures |out| == |raw|
    ensures h == 0 ==> (Lists(out[h], o) <==> (o in owned || Sib(o) in owned))
    ensures h == 1 ==> (Lists(out[h], o) <==> (Owns(owned, 1, Sib(o)) && !Owns(owned, 1, o)))
    ensures h >= 2 ==> (Lists(out[h], o) <==>
              (Owns(owned, h, Sib(o)) && !(Owns(owned, h - 1, 2 * o) && Owns(owned, h - 1, 2 * o + 1))))
  {
    FinishedLists(raw, out, h, o);
    CanonicalLists(hp, subs, height, owned, h, raw[h], o);
    if h > 0 {
      ChildrenListed(hp, subs, height, owned, h - 1, raw[h - 1], o);
    }
  }

  // ---- Agreement of assemblies -------------------------------------------------------------------

  lemma {:induction false} KeptNoRepeats(path: Path, h: nat, n: nat)
    requires h < |path| && n <= |path[h]| && NoRepeats(path[h])
    ensures NoRepeats(Kept(path, h, n))
  {
    if n > 0 {
      KeptNoRepeats(path, h, n - 1);
      var last := path[h][n - 1];
      KeptEntry(path, h, n - 1, last);
      assert last !in path[h][..n - 1];
      NoRepeatsAppend(Kept(path, h, n - 1), [last]);
    }
  }

  lemma SameEntriesSameMultiset(a: Level, b: Level)
    requires NoRepeats(a) && NoRepeats(b) && forall e :: e in a <==> e in b
    ensures multiset(a) == multiset(b)
  {
    forall e: Entry
      ensures multiset(a)[e] == multiset(b)[e]
    {
      RepeatCount(a, e);
      RepeatCount(b, e);
    }
  }

  lemma CanonicalLevel(hp: HashFn, subs: seq<seq<Hash>>, height: nat, lo: set<nat>, hi: set<nat>, raw: Path, h: nat)
    requires CanonicalPath(hp, subs, height, lo, hi, raw) && h < |raw|
    ensures Uniform(subs, height) && Canonical(hp, subs, height, if h < height then lo else hi, h, raw[h])
  {}

  lemma SameLists(hp: HashFn, subs: seq<seq<Hash>>, height: nat, owned: set<nat>, k: nat, a: Level, b: Level, o: nat)
    requires Uniform(subs, height) && Canonical(hp, subs, height, owned, k, a) && Canonical(hp, subs, height, owned, k, b)
    ensures Lists(a, o) <==> Lists(b, o)
  {
    CanonicalLists(hp, subs, height, owned, k, a, o);
    CanonicalLists(hp, subs, height, owned, k, b, o);
  }

  lemma SamePrunable(hp: HashFn, subs: seq<seq<Hash>>, height: nat, lo: set<nat>, hi: set<nat>,
                     a: Path, b: Path, h: nat, o: nat)
    requires CanonicalPath(hp, subs, height, lo, hi, a) && CanonicalPath(hp, subs, height, lo, hi, b) && h < |a|
    ensures |a| == |b| && (Prunable(a, h, o) <==> Prunable(b, h, o))
  {
    if h > 0 {
      assert |a| == |b|;
      CanonicalLevel(hp, subs, height, lo, hi, a, h - 1);
      CanonicalLevel(hp, subs, height, lo, hi, b, h - 1);
      hide Canonical, CanonicalPath, Lists;
      SameLists(hp, subs, height, if h - 1 < height then lo else hi, h - 1, a[h - 1], b[h - 1], 2 * o);
      SameLists(hp, subs, height, if h - 1 < height then lo else hi, h - 1, a[h - 1], b[h - 1], 2 * o + 1);
    }
  }

  lemma SameKeptEntry(hp: HashFn, subs: seq<seq<Hash>>, height: nat, lo: set<nat>, hi: set<nat>,
                      a: Path, b: Path, h: nat, e: Entry)
    requires CanonicalPath(hp, subs, height, lo, hi, a) && CanonicalPath(hp, subs, height, lo, hi, b) && h < |a| == |b|
    ensures e in Kept(a, h, |a[h]|) <==> e in Kept(b, h, |b[h]|)
  {
    CanonicalLevel(hp, subs, height, lo, hi, a, h);
    CanonicalLevel(hp, subs, height, lo, hi, b, h);
    assert e in a[h] <==> InLevel(hp, subs, height, if h < height then lo else hi, h, e);
    assert e in b[h] <==> InLevel(hp, subs, height, if h < height then lo else hi, h, e);
    assert a[h][..|a[h]|] == a[h] && b[h][..|b[h]|] == b[h];
    hide *;
    SamePrunable(hp, subs, height, lo, hi, a, b, h, e.offset);
    KeptEntry(a, h, |a[h]|, e);
    KeptEntry(b, h, |b[h]|, e);
  }

  /** Two raw paths of the same owned leaves list the same entries, hence prune the same ones. */
  lemma SameRawSameKept(hp: HashFn, subs: seq<seq<Hash>>, height: nat, lo: set<nat>, hi: set<nat>,
                        a: Path, b: Path, h: nat)
    requires CanonicalPath(hp, subs, height, lo, hi, a) && CanonicalPath(hp, subs, height, lo, hi, b) && h < |a| == |b|
    ensures multiset(Kept(a, h, |a[h]|)) == multiset(Kept(b, h, |b[h]|))
  {
    CanonicalLevel(hp, subs, height, lo, hi, a, h);
    CanonicalLevel(hp, subs, height, lo, hi, b, h);
    assert NoRepeats(a[h]) && NoRepeats(b[h]);
    hide *;
    forall e: Entry
      ensures e in Kept(a, h, |a[h]|) <==> e in Kept(b, h, |b[h]|)
    {
      SameKeptEntry(hp, subs, height, lo, hi, a, b, h, e);
    }
    KeptNoRepeats(a, h, |a[h]|);
    KeptNoRepeats(b, h, |b[h]|);
    SameEntriesSameMultiset(Kept(a, h, |a[h]|), Kept(b, h, |b[h]|));
  }

  /** Any two assemblies of the same owned leaves hold the same entries at every level. */
  lemma AssembliesAgree(hp: HashFn, subs: seq<seq<Hash>>, height: nat, lo: set<nat>, hi: set<nat>,
                        rawA: Path, outA: Path, rawB: Path, outB: Path)
    requires CanonicalPath(hp, subs, height, lo, hi, rawA) && Finished(rawA, outA)
    requires CanonicalPath(hp, subs, height, lo, hi, rawB) && Finished(rawB, outB)
    ensures |rawA| == |outA| == |outB| == |rawB|
    ensures forall h :: 0 <= h < |outA| ==> multiset(outA[h]) == multiset(outB[h])
  {
    forall h | 0 <= h < |outA|
      ensures multiset(outA[h]) == multiset(outB[h])
    {
      SameRawSameKept(hp, subs, height, lo, hi, rawA, rawB, h);
    }
  }

  ghost predicate NoPairWhollyOwned(owned: set<nat>) {
    forall g :: g in owned ==> Sib(g) !in owned
  }

  lemma FinishedNoRepeats(raw: Path, out: Path, h: nat)
    requires Finished(raw, out) && h < |raw| && NoRepeats(raw[h])
    ensures NoRepeats(out[h])
  {
    var kept := Kept(raw, h, |raw[h]|);
    KeptNoRepeats(raw, h, |raw[h]|);
    assert SortOf(kept, out[h]);
    PermutationNoRepeats(kept, out[h]);
  }

  /** Above the leaves offsets strictly increase; at the leaves they do exactly when no pair is wholly owned. */
  lemma OffsetsStrict(hp: HashFn, subs: seq<seq<Hash>>, height: nat, lo: set<nat>, hi: set<nat>, raw: Path, out: Path, h: nat)
    requires CanonicalPath(hp, subs, height, lo, hi, raw) && Finished(raw, out) && h < |raw|
    ensures h > 0 ==> StrictlySorted(out[h])
    ensures h == 0 ==> (StrictlySorted(out[0]) <==> NoPairWhollyOwned(lo))
  {
    FinishedNoRepeats(raw, out, h);
    var owned := if h < height then lo else hi;
    if h > 0 || NoPairWhollyOwned(lo) {
      forall i, j | 0 <= i < j < |out[h]|
        ensures out[h][i].offset < out[h][j].offset
      {
        var a, b := out[h][i], out[h][j];
        assert a in out[h] && b in out[h];
        FinishedEntry(raw, out, h, a);
        FinishedEntry(raw, out, h, b);
        assert InLevel(hp, subs, height, owned, h, a) && InLevel(hp, subs, height, owned, h, b);
        assert a != b;
      }
    } else {
      var g :| g in lo && Sib(g) in lo;
      SibInvolution(g);
      var o := if g % 2 == 1 then g else Sib(g);
      SibInvolution(o);
      var t := Entry(o, BlockNode(hp, subs, height, 0, o), true);
      var s := Entry(o, BlockNode(hp, subs, height, 0, o), false);
      assert InLevel(hp, subs, height, lo, 0, t) && InLevel(hp, subs, height, lo, 0, s);
      FinishedEntry(raw, out, 0, t);
      FinishedEntry(raw, out, 0, s);
      var i :| 0 <= i < |out[0]| && out[0][i] == t;
      var j :| 0 <= j < |out[0]| && out[0][j] == s;
    }
  }

  lemma LastIsGreatest(a: Level, b: Level)
    requires StrictlySorted(a) && StrictlySorted(b) && forall e :: e in a <==> e in b
    ensures (a == []) == (b == [])
    ensures a != [] ==> a[|a| - 1] == b[|b| - 1]
  {
    assert |b| > 0 ==> b[0] in b && b[|b| - 1] in b;
    assert |a| > 0 ==> a[0] in a && a[|a| - 1] in a;
    if a != [] {
      var i :| 0 <= i < |b| && b[i] == a[|a| - 1];
      var j :| 0 <= j < |a| && a[j] == b[|b| - 1];
    }
  }

  lemma DropLast(a: Level, e: Entry)
    requires StrictlySorted(a) && a != []
    ensures e in a[..|a| - 1] <==> e in a && e != a[|a| - 1]
  {
    assert a == a[..|a| - 1] + [a[|a| - 1]];
  }

  lemma {:induction false} StrictUnique(a: Level, b: Level)
    requires StrictlySorted(a) && StrictlySorted(b) && forall e :: e in a <==> e in b
    ensures a == b
  {
    LastIsGreatest(a, b);
    if a != [] {
      var a0, b0 := a[..|a| - 1], b[..|b| - 1];
      forall e: Entry
        ensures e in a0 <==> e in b0
      {
        DropLast(a, e);
        DropLast(b, e);
      }
      StrictUnique(a0, b0);
      assert a == a0 + [a[|a| - 1]];
      assert b == b0 + [b[|b| - 1]];
    }
  }

  /** ... and when no pair is wholly owned, they are the same path, entry by entry. */
  lemma AssembliesIdentical(hp: HashFn, subs: seq<seq<Hash>>, height: nat, lo: set<nat>, hi: set<nat>,
                            rawA: Path, outA: Path, rawB: Path, outB: Path)
    requires CanonicalPath(hp, subs, height, lo, hi, rawA) && Finished(rawA, outA)
    requires CanonicalPath(hp, subs, height, lo, hi, rawB) && Finished(rawB, outB)
    requires NoPairWhollyOwned(lo)
    ensures outA == outB
  {
    AssembliesAgree(hp, subs, height, lo, hi, rawA, outA, rawB, outB);
    forall h | 0 <= h < |outA|
      ensures outA[h] == outB[h]
    {
      OffsetsStrict(hp, subs, height, lo, hi, rawA, outA, h);
      OffsetsStrict(hp, subs, height, lo, hi, rawB, outB, h);
      assert forall e :: e in outA[h] <==> e in multiset(outA[h]);
      assert forall e :: e in outB[h] <==> e in multiset(outB[h]);
      StrictUnique(outA[h], outB[h]);
    }
  }

  // ---- When the order of equal offsets shows -------------------------------------------------------

  lemma SwapSame(lev: Level, i: nat, j: nat)
    requires i < j < |lev|
    ensures multiset(lev[i := lev[j]][j := lev[i]]) == multiset(lev)
  {}

  /** Two entries of one offset exchanged: still sorted, still the same entries. */
  lemma SwapTie(lev: Level, sorted: Level, i: nat, j: nat)
    requires SortOf(lev, sorted) && i < j < |sorted| && sorted[i].offset == sorted[j].offset
    ensures SortOf(lev, sorted[i := sorted[j]][j := sorted[i]])
  {
    var swapped := sorted[i := sorted[j]][j := sorted[i]];
    SwapSame(sorted, i, j);
    forall a, b | 0 <= a < b < |swapped|
      ensures swapped[a].offset <= swapped[b].offset
    {
      assert swapped[a].offset == sorted[a].offset && swapped[b].offset == sorted[b].offset;
    }
  }

  /** A tie at level 0 leaves the sort two results. */
  lemma TieBreaks(raw: Path, out: Path, i: nat, j: nat)
    requires Finished(raw, out) && |out| > 0 && i < j < |out[0]|
    requires out[0][i].offset == out[0][j].offset && out[0][i] != out[0][j]
    ensures exists other :: Finished(raw, other) && other != out
  {
    var swapped := out[0][i := out[0][j]][j := out[0][i]];
    var other := out[0 := swapped];
    hide Kept;
    SwapTie(Kept(raw, 0, |raw[0]|), out[0], i, j);
    hide SortOf;
    assert swapped[i] == out[0][j];
    assert other[0] == swapped && forall h :: 0 < h < |out| ==> other[h] == out[h];
    assert Finished(raw, other) && other != out;
  }

  /** A raw path fixes the finished one exactly when no sibling pair is wholly owned: the sort is not stable. */
  lemma FinishedDetermined(hp: HashFn, subs: seq<seq<Hash>>, height: nat, lo: set<nat>, hi: set<nat>, raw: Path, out: Path)
    requires CanonicalPath(hp, subs, height, lo, hi, raw) && Finished(raw, out)
    ensures NoPairWhollyOwned(lo) <==> forall other :: Finished(raw, other) ==> other == out
  {
    if NoPairWhollyOwned(lo) {
      forall other | Finished(raw, other)
        ensures other == out
      {
        AssembliesIdentical(hp, subs, height, lo, hi, raw, other, raw, out);
      }
    } else {
      OffsetsStrict(hp, subs, height, lo, hi, raw, out, 0);
      FinishedNoRepeats(raw, out, 0);
      assert SortOf(Kept(raw, 0, |raw[0]|), out[0]);
      var i, j :| 0 <= i < j < |out[0]| && out[0][i].offset >= out[0][j].offset;
      assert out[0][i].offset == out[0][j].offset && out[0][i] != out[0][j];
      hide *;
      TieBreaks(raw, out, i, j);
    }
  }
}
