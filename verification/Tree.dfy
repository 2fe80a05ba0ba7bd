/** The merkle tree over a list of leaves, defined level by level: the reference for the flat store. */
module Tree {
  import opened Arith
  import opened Hashes

  function PadLeaf(leaves: seq<Hash>, i: nat): Hash
    requires |leaves| > 0
  {
    if i >= |leaves| then leaves[|leaves| - 1] else leaves[i]
  }

  /** The node at position i of level k; level 0 is the leaves padded with the last one. */
  function Node(hp: HashFn, leaves: seq<Hash>, k: nat, i: nat): Hash
    requires |leaves| > 0
  {
    if k == 0 then PadLeaf(leaves, i)
    else hp(Node(hp, leaves, k - 1, 2 * i), Node(hp, leaves, k - 1, 2 * i + 1))
  }

  function Root(hp: HashFn, leaves: seq<Hash>): Hash
    requires |leaves| > 0
  {
    Node(hp, leaves, Log2(|leaves|), 0)
  }

  lemma OneLeaf(hp: HashFn, leaf: Hash)
    ensures Root(hp, [leaf]) == leaf
  {}

  lemma {:induction false} NodeOfHalves(hp: HashFn, a: seq<Hash>, b: seq<Hash>, h: nat, k: nat, i: nat)
    requires |a| == |b| == Pow2(h) && k <= h && i < Pow2(h - k)
    ensures Node(hp, a + b, k, i) == Node(hp, a, k, i)
    ensures Node(hp, a + b, k, Pow2(h - k) + i) == Node(hp, b, k, i)
    decreases k
  {
    if k > 0 {
      NodeOfHalves(hp, a, b, h, k - 1, 2 * i);
      NodeOfHalves(hp, a, b, h, k - 1, 2 * i + 1);
    }
  }

  /** The root over two halves of 2^h leaves each is the hash of their roots, left first. */
  lemma RootOfHalves(hp: HashFn, a: seq<Hash>, b: seq<Hash>, h: nat)
    requires |a| == |b| == Pow2(h)
    ensures Root(hp, a + b) == hp(Root(hp, a), Root(hp, b))
  {
    Log2OfPow2(h);
    Log2OfPow2(h + 1);
    assert Pow2(0) == 1;
    NodeOfHalves(hp, a, b, h, h, 0);
  }

  lemma {:induction false} NodeOfPadded(hp: HashFn, leaves: seq<Hash>, n: nat, k: nat, i: nat)
    requires |leaves| > 0
    ensures Node(hp, leaves + seq(n, _ => leaves[|leaves| - 1]), k, i) == Node(hp, leaves, k, i)
  {
    if k > 0 {
      NodeOfPadded(hp, leaves, n, k - 1, 2 * i);
      NodeOfPadded(hp, leaves, n, k - 1, 2 * i + 1);
    }
  }

  /** Repeating the last leaf up to the next power of two leaves the root as it is. */
  lemma RootOfPadded(hp: HashFn, leaves: seq<Hash>, n: nat)
    requires |leaves| > 0 && |leaves| + n == Pow2(Log2(|leaves|))
    ensures Root(hp, leaves + seq(n, _ => leaves[|leaves| - 1])) == Root(hp, leaves)
  {
    Log2OfPow2(Log2(|leaves|));
    NodeOfPadded(hp, leaves, n, Log2(|leaves|), 0);
  }

  /** Index of the first level-k cell in the flat store of a tree of height h: pad - pad / 2^(k-1). */
  function LevelStart(h: nat, k: nat): (s: int)
    requires 1 <= k <= h + 1
  {
    Pow2(h) - Pow2(h - k + 1)
  }

  lemma LevelStartNext(h: nat, k: nat)
    requires 1 <= k <= h
    ensures 0 <= LevelStart(h, k)
    ensures LevelStart(h, k + 1) == LevelStart(h, k) + Pow2(h - k)
    ensures LevelStart(h, k + 1) <= Pow2(h) - 1
  {
    Pow2Monotone(h - k + 1, h);
  }

  ghost predicate CellHolds(hp: HashFn, leaves: seq<Hash>, store: seq<Hash>, h: nat, k: nat, i: nat)
    requires |leaves| > 0 && 1 <= k <= h
  {
    var c := LevelStart(h, k) + i;
    0 <= c < |store| && store[c] == Node(hp, leaves, k, i)
  }

  /** Levels 1..top of the flat store hold exactly the nodes of the tree. */
  ghost predicate Filled(hp: HashFn, leaves: seq<Hash>, store: seq<Hash>, h: nat, top: nat)
    requires |leaves| > 0 && top <= h
  {
    forall k, i :: 1 <= k <= top && 0 <= i < Pow2(h - k) ==> CellHolds(hp, leaves, store, h, k, i)
  }

  ghost predicate IsStore(hp: HashFn, leaves: seq<Hash>, store: seq<Hash>)
    requires |leaves| > 0
  {
    var h := Log2(|leaves|);
    |store| == Pow2(h) - 1 && Filled(hp, leaves, store, h, h)
  }

  /** The last cell of a store is the root. */
  lemma StoreRoot(hp: HashFn, leaves: seq<Hash>, store: seq<Hash>)
    requires |leaves| >= 2 && IsStore(hp, leaves, store)
    ensures |store| > 0 && store[|store| - 1] == Root(hp, leaves)
  {
    var h := Log2(|leaves|);
    Log2Bounds(|leaves|);
    assert CellHolds(hp, leaves, store, h, h, 0);
  }

  lemma LevelsInOrder(h: nat, l: nat, k: nat)
    requires 1 <= l <= k <= h
    ensures LevelStart(h, l + 1) <= LevelStart(h, k + 1)
  {
    Pow2Monotone(h - k, h - l);
  }

  /** The level, among the first `top`, that cell c lies in. */
  ghost function LevelOf(h: nat, top: nat, c: nat): (k: nat)
    requires 1 <= top <= h && c < LevelStart(h, top + 1)
    ensures 1 <= k <= top && LevelStart(h, k) <= c < LevelStart(h, k + 1)
  {
    LevelStartNext(h, top);
    if c >= LevelStart(h, top) then top else LevelOf(h, top - 1, c)
  }

  /** A store exists for all leaves: each cell filled from the level it lies in. */
  ghost function StoreOf(hp: HashFn, leaves: seq<Hash>): seq<Hash>
    requires |leaves| >= 2
  {
    var h := Log2(|leaves|);
    seq(Pow2(h) - 1, c requires 0 <= c < Pow2(h) - 1 =>
      var k := LevelOf(h, h, c); Node(hp, leaves, k, c - LevelStart(h, k)))
  }

  lemma StoreOfIsStore(hp: HashFn, leaves: seq<Hash>)
    requires |leaves| >= 2
    ensures IsStore(hp, leaves, StoreOf(hp, leaves))
  {
    var h := Log2(|leaves|);
    forall k, i | 1 <= k <= h && 0 <= i < Pow2(h - k)
      ensures CellHolds(hp, leaves, StoreOf(hp, leaves), h, k, i)
    {
      LevelStartNext(h, k);
      LevelsInOrder(h, k, h);
      var c := LevelStart(h, k) + i;
      var l := LevelOf(h, h, c);
      if l < k { LevelsInOrder(h, l, k - 1); }
      if k < l { LevelsInOrder(h, k, l - 1); }
    }
  }

  /** Leaves determine their store. */
  lemma StoreUnique(hp: HashFn, leaves: seq<Hash>, s: seq<Hash>, t: seq<Hash>)
    requires |leaves| >= 2 && IsStore(hp, leaves, s) && IsStore(hp, leaves, t)
    ensures s == t
  {
    var h := Log2(|leaves|);
    forall c | 0 <= c < |s|
      ensures s[c] == t[c]
    {
      var k := LevelOf(h, h, c);
      var i := c - LevelStart(h, k);
      LevelStartNext(h, k);
      assert CellHolds(hp, leaves, s, h, k, i) && CellHolds(hp, leaves, t, h, k, i);
    }
  }

  /** The sibling path of a leaf, bottom up. */
  function ProofOf(hp: HashFn, leaves: seq<Hash>, index: nat): (proof: seq<Hash>)
    requires |leaves| > 0
  {
    seq(Log2(|leaves|), k requires k >= 0 => Node(hp, leaves, k, Sib(Shr(index, k))))
  }

  /** One step up from position i: the pair hash in parity order. */
  function Join(hp: HashFn, i: nat, cur: Hash, sibling: Hash): Hash {
    if i % 2 == 0 then hp(cur, sibling) else hp(sibling, cur)
  }

  /** Hashing a node of level k up the rest of its leaf's sibling path: the single-leaf verifier. */
  function Fold(hp: HashFn, proof: seq<Hash>, index: nat, k: nat, cur: Hash): Hash
    requires k <= |proof|
    decreases |proof| - k
  {
    if k == |proof| then cur else Fold(hp, proof, index, k + 1, Join(hp, Shr(index, k), cur, proof[k]))
  }

  /** A node and its sibling, in parity order, make their parent. */
  lemma ParentStep(hp: HashFn, leaves: seq<Hash>, k: nat, i: nat)
    requires |leaves| > 0
    ensures Node(hp, leaves, k + 1, i / 2) == Join(hp, i, Node(hp, leaves, k, i), Node(hp, leaves, k, Sib(i)))
  {}

  lemma {:induction false} FoldFrom(hp: HashFn, leaves: seq<Hash>, index: nat, k: nat)
    requires |leaves| > 0 && k <= Log2(|leaves|) && index < Pow2(Log2(|leaves|))
    ensures Fold(hp, ProofOf(hp, leaves, index), index, k, Node(hp, leaves, k, Shr(index, k)))
         == Root(hp, leaves)
    decreases Log2(|leaves|) - k
  {
    hide Node, Sib;
    var h := Log2(|leaves|);
    if k == h {
      ShrBound(index, h, h);
    } else {
      ParentStep(hp, leaves, k, Shr(index, k));
      FoldFrom(hp, leaves, index, k + 1);
    }
  }

  /** Proof round trip: the path of every leaf, of every tree size, folds to the root. */
  lemma ProofRoundTrip(hp: HashFn, leaves: seq<Hash>, index: nat)
    requires index < |leaves|
    ensures |ProofOf(hp, leaves, index)| == Log2(|leaves|)
    ensures Fold(hp, ProofOf(hp, leaves, index), index, 0, leaves[index]) == Root(hp, leaves)
  {
    Log2Bounds(|leaves|);
    FoldFrom(hp, leaves, index, 0);
  }
}
