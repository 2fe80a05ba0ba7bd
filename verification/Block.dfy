/** The block tree: equal subtrees of 2^height leaves joined by a top tree over their roots. */
module Block {
  import opened Arith
  import opened Hashes
  import opened Tree

  ghost predicate Uniform(subs: seq<seq<Hash>>, height: nat) {
    |subs| > 0 && forall i :: 0 <= i < |subs| ==> |subs[i]| == Pow2(height)
  }

  /** Past the last subtree the top tree repeats it, as it repeats its root. */
  function SubtreeAt(subs: seq<seq<Hash>>, si: nat): seq<Hash>
    requires |subs| > 0
  {
    if si >= |subs| then subs[|subs| - 1] else subs[si]
  }

  function LeafAt(subs: seq<seq<Hash>>, height: nat, g: nat): Hash
    requires |subs| > 0 && forall i :: 0 <= i < |subs| ==> |subs[i]| == Pow2(height)
  {
    SubtreeAt(subs, Quot(g, Pow2(height)))[Rem(g, Pow2(height))]
  }

  /** The whole block as one tree over global leaf indices. */
  ghost function BlockNode(hp: HashFn, subs: seq<seq<Hash>>, height: nat, h: nat, o: nat): Hash
    requires Uniform(subs, height)
  {
    if h == 0 then LeafAt(subs, height, o)
    else hp(BlockNode(hp, subs, height, h - 1, 2 * o), BlockNode(hp, subs, height, h - 1, 2 * o + 1))
  }

  function Roots(hp: HashFn, subs: seq<seq<Hash>>): (roots: seq<Hash>)
    requires forall i :: 0 <= i < |subs| ==> |subs[i]| > 0
    ensures |roots| == |subs|
  {
    seq(|subs|, i requires 0 <= i < |subs| => Root(hp, subs[i]))
  }

  ghost function BlockRoot(hp: HashFn, subs: seq<seq<Hash>>, height: nat): Hash
    requires Uniform(subs, height)
  {
    BlockNode(hp, subs, height, height + Log2(|subs|), 0)
  }

  /** Below the subtree roots the block tree is the subtrees side by side. */
  lemma {:induction false} SubtreeNode(hp: HashFn, subs: seq<seq<Hash>>, height: nat, h: nat, si: nat, y: nat)
    requires Uniform(subs, height) && h <= height && y < Pow2(height - h)
    ensures |SubtreeAt(subs, si)| > 0
    ensures BlockNode(hp, subs, height, h, si * Pow2(height - h) + y) == Node(hp, SubtreeAt(subs, si), h, y)
  {
    hide Quot, Rem;
    if h == 0 {
      DivModSplit(si, y, Pow2(height));
    } else {
      var p := Pow2(height - h);
      Halve(si, p, 0);
      assert Pow2(height - (h - 1)) == 2 * p;
      SubtreeNode(hp, subs, height, h - 1, si, 2 * y);
      SubtreeNode(hp, subs, height, h - 1, si, 2 * y + 1);
      assert 2 * (si * p + y) == si * (2 * p) + 2 * y;
    }
  }

  /** From the subtree roots up, the block tree is the top tree over the roots. */
  lemma {:induction false} TopNode(hp: HashFn, subs: seq<seq<Hash>>, height: nat, j: nat, o: nat)
    requires Uniform(subs, height)
    ensures BlockNode(hp, subs, height, height + j, o) == Node(hp, Roots(hp, subs), j, o)
  {
    if j == 0 {
      SubtreeNode(hp, subs, height, height, o, 0);
      Log2OfPow2(height);
    } else {
      TopNode(hp, subs, height, j - 1, 2 * o);
      TopNode(hp, subs, height, j - 1, 2 * o + 1);
    }
  }

  /** Two-tier composition, for any number of subtrees. */
  lemma TwoTierRoot(hp: HashFn, subs: seq<seq<Hash>>, height: nat)
    requires Uniform(subs, height)
    ensures BlockRoot(hp, subs, height) == Root(hp, Roots(hp, subs))
  {
    TopNode(hp, subs, height, Log2(|subs|), 0);
  }

  /** All txids of the block in order: the leaves of the single tree the two tiers stand for. */
  function AllLeaves(subs: seq<seq<Hash>>, height: nat): seq<Hash>
    requires |subs| > 0 && forall i :: 0 <= i < |subs| ==> |subs[i]| == Pow2(height)
  {
    seq(|subs| * Pow2(height), g requires g >= 0 => LeafAt(subs, height, g))
  }

  lemma {:induction false} OneTreeNode(hp: HashFn, subs: seq<seq<Hash>>, height: nat, top: nat, h: nat, o: nat)
    requires Uniform(subs, height) && |subs| == Pow2(top)
    requires h <= height + top && o < Pow2(height + top - h)
    ensures |AllLeaves(subs, height)| == Pow2(height + top)
    ensures BlockNode(hp, subs, height, h, o) == Node(hp, AllLeaves(subs, height), h, o)
  {
    Pow2Add(top, height);
    if h > 0 {
      OneTreeNode(hp, subs, height, top, h - 1, 2 * o);
      OneTreeNode(hp, subs, height, top, h - 1, 2 * o + 1);
    }
  }

  lemma OneTreeHeights(hp: HashFn, subs: seq<seq<Hash>>, height: nat, top: nat, si: nat)
    requires Uniform(subs, height) && |subs| == Pow2(top) && si < |subs|
    ensures |AllLeaves(subs, height)| > 0 && Log2(|AllLeaves(subs, height)|) == height + top
    ensures Log2(|subs[si]|) == height && Log2(|subs|) == top && forall i :: 0 <= i < |subs| ==> |subs[i]| > 0
  {
    hide Log2, LeafAt;
    Pow2Add(top, height);
    Log2OfPow2(height);
    Log2OfPow2(top);
    Log2OfPow2(height + top);
  }

  lemma OneTreePath(hp: HashFn, subs: seq<seq<Hash>>, all: seq<Hash>, height: nat, top: nat, si: nat, li: nat, g: nat)
    requires si < |subs| && |all| > 0 && Log2(|all|) == height + top
    requires Log2(|subs[si]|) == height && Log2(|subs|) == top && forall i :: 0 <= i < |subs| ==> |subs[i]| > 0
    requires forall k :: 0 <= k < height + top ==>
      Node(hp, all, k, Sib(Shr(g, k))) ==
        if k < height then Node(hp, subs[si], k, Sib(Shr(li, k))) else Node(hp, Roots(hp, subs), k - height, Sib(Shr(si, k - height)))
    ensures ProofOf(hp, all, g) == ProofOf(hp, subs[si], li) + ProofOf(hp, Roots(hp, subs), si)
  {
    hide Node, Sib, Shr, Roots, Log2;
    var path, left, right := ProofOf(hp, all, g), ProofOf(hp, subs[si], li), ProofOf(hp, Roots(hp, subs), si);
    assert |path| == height + top && |left| == height && |right| == top;
    forall k | 0 <= k < height + top
      ensures path[k] == (left + right)[k]
    {
      assert path[k] == Node(hp, all, k, Sib(Shr(g, k)));
      if k < height {
        assert (left + right)[k] == left[k] == Node(hp, subs[si], k, Sib(Shr(li, k)));
      } else {
        assert (left + right)[k] == right[k - height] == Node(hp, Roots(hp, subs), k - height, Sib(Shr(si, k - height)));
      }
    }
  }

  /** Shifting a global index past the subtree levels leaves the subtree index. */
  lemma TopShift(si: nat, height: nat, li: nat, j: nat)
    requires li < Pow2(height)
    ensures Shr(si * Pow2(height) + li, height + j) == Shr(si, j)
  {
    hide Shr;
    ShrSplit(si, height, li, height);
    ShrBound(li, height, height);
    ShrAdd(si * Pow2(height) + li, height, j);
  }

  /** The siblings of a leaf's ancestors, wherever they lie: inside its subtree or in the top tree. */
  lemma SiblingNode(hp: HashFn, subs: seq<seq<Hash>>, height: nat, si: nat, li: nat, k: nat)
    requires Uniform(subs, height) && si < |subs| && li < Pow2(height)
    ensures var g := si * Pow2(height) + li;
            BlockNode(hp, subs, height, k, Sib(Shr(g, k))) ==
              if k < height then Node(hp, subs[si], k, Sib(Shr(li, k)))
              else Node(hp, Roots(hp, subs), k - height, Sib(Shr(si, k - height)))
  {
    hide Node, Sib;
    var g := si * Pow2(height) + li;
    if k < height {
      ShrSplit(si, height, li, k);
      SibSplit(si, height - k, Shr(li, k));
      ShrBound(li, height, k);
      SibBound(Shr(li, k), height - k);
      SubtreeNode(hp, subs, height, k, si, Sib(Shr(li, k)));
    } else {
      TopShift(si, height, li, k - height);
      TopNode(hp, subs, height, k - height, Sib(Shr(si, k - height)));
    }
  }

  lemma OneTreeSibling(hp: HashFn, subs: seq<seq<Hash>>, height: nat, top: nat, si: nat, li: nat, g: nat, k: nat)
    requires Uniform(subs, height) && |subs| == Pow2(top) && si < |subs| && li < Pow2(height)
    requires g == si * Pow2(height) + li && k < height + top
    ensures Node(hp, AllLeaves(subs, height), k, Sib(Shr(g, k))) ==
            if k < height then Node(hp, subs[si], k, Sib(Shr(li, k)))
            else Node(hp, Roots(hp, subs), k - height, Sib(Shr(si, k - height)))
  {
    hide Node, Sib, AllLeaves, Shr, BlockNode;
    Pow2Add(top, height);
    MulStep(si, |subs|, Pow2(height));
    ShrBound(g, height + top, k);
    SibBound(Shr(g, k), height + top - k);
    OneTreeNode(hp, subs, height, top, k, Sib(Shr(g, k)));
    SiblingNode(hp, subs, height, si, li, k);
  }

  lemma OneTreeAt(hp: HashFn, subs: seq<seq<Hash>>, height: nat, top: nat, si: nat, li: nat, g: nat)
    requires Uniform(subs, height) && |subs| == Pow2(top) && si < |subs| && li < Pow2(height)
    requires g == si * Pow2(height) + li && |AllLeaves(subs, height)| > 0 && forall i :: 0 <= i < |subs| ==> |subs[i]| > 0
    ensures ProofOf(hp, AllLeaves(subs, height), g) == ProofOf(hp, subs[si], li) + ProofOf(hp, Roots(hp, subs), si)
  {
    var all := AllLeaves(subs, height);
    hide *;
    OneTreeHeights(hp, subs, height, top, si);
    forall k | 0 <= k < height + top
      ensures Node(hp, all, k, Sib(Shr(g, k))) ==
              if k < height then Node(hp, subs[si], k, Sib(Shr(li, k)))
              else Node(hp, Roots(hp, subs), k - height, Sib(Shr(si, k - height)))
    {
      OneTreeSibling(hp, subs, height, top, si, li, g, k);
    }
    OneTreePath(hp, subs, all, height, top, si, li, g);
  }

  lemma OneTreeRoots(hp: HashFn, subs: seq<seq<Hash>>, height: nat, top: nat)
    requires Uniform(subs, height) && |subs| == Pow2(top) && |AllLeaves(subs, height)| > 0
    requires Log2(|AllLeaves(subs, height)|) == height + top && forall i :: 0 <= i < |subs| ==> |subs[i]| > 0
    ensures Root(hp, Roots(hp, subs)) == Root(hp, AllLeaves(subs, height))
  {
    hide Node, AllLeaves, BlockNode, LeafAt, Roots, Log2;
    Log2OfPow2(top);
    OneTreeNode(hp, subs, height, top, height + top, 0);
    TwoTierRoot(hp, subs, height);
  }

  /**
    With a power-of-two number of subtrees the root over the subtree roots is the root of one tree over
    all txids, and a subtree path followed by a top-tree path is the one-tree path of the global index.
   */
  lemma OneTree(hp: HashFn, subs: seq<seq<Hash>>, height: nat, top: nat, si: nat, li: nat)
    requires Uniform(subs, height) && |subs| == Pow2(top) && si < |subs| && li < Pow2(height)
    ensures Root(hp, Roots(hp, subs)) == Root(hp, AllLeaves(subs, height))
    ensures ProofOf(hp, AllLeaves(subs, height), si * Pow2(height) + li)
         == ProofOf(hp, subs[si], li) + ProofOf(hp, Roots(hp, subs), si)
  {
    hide Root, ProofOf, AllLeaves, Pow2, Log2, Node;
    OneTreeHeights(hp, subs, height, top, si);
    OneTreeRoots(hp, subs, height, top);
    OneTreeAt(hp, subs, height, top, si, li, si * Pow2(height) + li);
  }
}
