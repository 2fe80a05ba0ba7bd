/**
  From a coherent ledger to proofs: the winner's stored subtrees, roots, positions and fragments are what the
  assembly theorems ask for, so every token's BUMP proves its txids to the root over the winner's recorded roots.
 */
module Pipeline {
  import opened Arith
  import opened Hashes
  import opened Bytes
  import opened Tree
  import opened Block
  import opened Bump
  import opened BumpCodec
  import opened FragmentCodec
  import opened Emit
  import opened Canon
  import opened Validity
  import opened Jit
  import opened Fragments
  import opened Compound
  import opened Sorting
  import opened TokenIndex
  import opened Ledger

  // ---- The winner's block --------------------------------------------------------------------------

  /** Every subtree of miner w agrees with itself: filed[si] are the leaves it was indexed from, leaves[si] the stored ones. */
  ghost predicate BlockCoherent(hp: HashFn, cfg: Config, s: State, w: nat, filed: seq<seq<Hash>>, leaves: seq<seq<Hash>>)
    requires ValidConfig(cfg) && Shaped(cfg, s) && w < cfg.miners
  {
    && |filed| == |leaves| == cfg.subtrees
    && (forall si :: 0 <= si < cfg.subtrees ==> Coherent(hp, cfg, s, w, si, filed[si], leaves[si]))
    && (forall t, si :: si >= cfg.subtrees ==> At(s.index[w], t, si) == [])
  }

  /**
    What the proofs need of a configuration: a power-of-two subtree size (the harness checks only divisibility),
    two subtrees, and sizes within one height byte, int indices and four-byte entry counts.
   */
  ghost predicate Provable(cfg: Config) {
    && ValidConfig(cfg) && cfg.subtrees >= 2 && IsPow2(cfg.hps)
    && Log2(cfg.hps) + Log2(cfg.subtrees) < 256
    && cfg.subtrees * cfg.hps < 0x8000_0000_0000_0000
    && 2 * cfg.hps < U32 && cfg.subtrees < U32
  }

  function CachedAt(s: State, w: nat, si: nat): Cached
    requires (w, si) in s.disk
  {
    Cached(BytesHashes(s.disk[(w, si)].0), BytesHashes(s.disk[(w, si)].1))
  }

  /** The subtrees that hold positions of the token and could be loaded. */
  ghost function Loadable(cfg: Config, s: State, w: nat, ti: nat, lost: set<nat>): set<nat>
    requires w < |s.index|
  {
    set si | 0 <= si < cfg.subtrees && si !in lost && PositionsOf(s, w, si, ti) != []
  }

  ghost function TopProofs(hp: HashFn, roots: seq<Hash>): seq<seq<Hash>>
    requires |roots| > 0
  {
    seq(|roots|, i requires 0 <= i < |roots| => ProofOf(hp, roots, i))
  }

  /** What the assembly of one token reads: the loaded subtrees and the top tree over the recorded roots. */
  ghost function PlanFor(hp: HashFn, cfg: Config, s: State, w: nat, loaded: set<nat>): Plan
    requires Shaped(cfg, s) && w < cfg.miners && cfg.subtrees > 0
  {
    Plan(cfg.hps, Log2(cfg.hps), Log2(cfg.subtrees), map si | si in loaded && (w, si) in s.disk :: CachedAt(s, w, si),
         TopProofs(hp, s.roots[w]))
  }

  lemma BlockRoots(hp: HashFn, cfg: Config, s: State, w: nat, filed: seq<seq<Hash>>, leaves: seq<seq<Hash>>)
    requires ValidConfig(cfg) && Shaped(cfg, s) && w < cfg.miners && BlockCoherent(hp, cfg, s, w, filed, leaves)
    ensures |leaves| == cfg.subtrees && forall si :: 0 <= si < |leaves| ==> |leaves[si]| == cfg.hps > 0
    ensures Roots(hp, leaves) == s.roots[w]
  {
    hide IsStore, BytesHashes, Indexed, Fragmented, Root;
    forall si | 0 <= si < cfg.subtrees
      ensures |leaves[si]| == cfg.hps && s.roots[w][si] == Root(hp, leaves[si])
    {
      assert Coherent(hp, cfg, s, w, si, filed[si], leaves[si]);
    }
  }

  lemma PlanGenuine(hp: HashFn, cfg: Config, s: State, w: nat, filed: seq<seq<Hash>>, leaves: seq<seq<Hash>>, loaded: set<nat>)
    requires Provable(cfg) && Shaped(cfg, s) && w < cfg.miners && BlockCoherent(hp, cfg, s, w, filed, leaves)
    requires forall si :: si in loaded ==> si < cfg.subtrees
    ensures var plan := PlanFor(hp, cfg, s, w, loaded);
      && Genuine(hp, leaves, plan) && WithinLimits(plan, |leaves|) && plan.subtrees.Keys == loaded
      && plan.hps == cfg.hps
  {
    BlockRoots(hp, cfg, s, w, filed, leaves);
    hide IsStore, BytesHashes, Indexed, Fragmented, Root, Roots, ProofOf, Log2, Pow2;
    var plan := PlanFor(hp, cfg, s, w, loaded);
    forall si | si in loaded
      ensures (w, si) in s.disk && plan.subtrees[si].leaves == leaves[si] && IsStore(hp, leaves[si], plan.subtrees[si].store)
    {
      assert Coherent(hp, cfg, s, w, si, filed[si], leaves[si]);
    }
  }

  // ---- What a token owns ---------------------------------------------------------------------------

  /** The global indices of the token's txids in the loaded subtrees. */
  ghost function TokenGlobals(cfg: Config, s: State, w: nat, ti: nat, loaded: set<nat>): set<nat>
    requires w < |s.index|
  {
    set si, li | si in loaded && 0 <= li < cfg.hps && li in PositionsOf(s, w, si, ti) :: si * cfg.hps + li
  }

  lemma NoGlobals(cfg: Config, s: State, w: nat, ti: nat)
    requires w < |s.index|
    ensures TokenGlobals(cfg, s, w, ti, {}) == {}
  {}

  lemma GlobalsGrow(cfg: Config, s: State, w: nat, ti: nat, loaded: set<nat>, si: nat, order: seq<nat>)
    requires w < |s.index| && InSubtree(cfg.hps, order)
    requires forall li :: li in order <==> li in PositionsOf(s, w, si, ti)
    ensures TokenGlobals(cfg, s, w, ti, loaded + {si}) ==
            TokenGlobals(cfg, s, w, ti, loaded) + Globals(Positions(cfg.hps, si, order))
  {
    var ps := Positions(cfg.hps, si, order);
    forall g
      ensures g in Globals(ps) <==> exists li :: 0 <= li < cfg.hps && li in PositionsOf(s, w, si, ti) && g == si * cfg.hps + li
    {
      if g in Globals(ps) {
        var i :| 0 <= i < |ps| && ps[i].g == g;
        assert order[i] in order;
      }
      if li :| 0 <= li < cfg.hps && li in PositionsOf(s, w, si, ti) && g == si * cfg.hps + li {
        var i :| 0 <= i < |order| && order[i] == li;
        assert ps[i].g == g;
      }
    }
  }

  lemma InGlobals(cfg: Config, s: State, w: nat, ti: nat, loaded: set<nat>, si: nat, li: nat)
    requires w < |s.index| && si in loaded && li < cfg.hps && li in PositionsOf(s, w, si, ti)
    ensures si * cfg.hps + li in TokenGlobals(cfg, s, w, ti, loaded)
  {}

  // ---- Fragments as pieces -------------------------------------------------------------------------

  lemma PlanSubtree(hp: HashFn, leaves: seq<seq<Hash>>, plan: Plan, si: nat)
    requires Genuine(hp, leaves, plan) && si in plan.subtrees
    ensures si < |leaves| == |plan.topProofs| && |leaves[si]| == plan.hps >= 2 && plan.height == Log2(plan.hps)
    ensures plan.subtrees[si].leaves == leaves[si] && IsStore(hp, leaves[si], plan.subtrees[si].store)
  {}

  lemma FragmentOrder(hp: HashFn, plan: Plan, si: nat, leaves: seq<Hash>, list: seq<nat>, data: Data) returns (order: seq<nat>)
    requires ValidPlan(plan) && si in plan.subtrees && si < |plan.topProofs| && plan.height == Log2(plan.hps)
    requires |leaves| == plan.hps && plan.subtrees[si].leaves == leaves && IsStore(hp, leaves, plan.subtrees[si].store)
    requires 2 * plan.hps < U32 && NoRepeats(list) && FragmentFor(hp, plan.hps, si, leaves, list, data)
    ensures InSubtree(plan.hps, order) && forall li :: li in order <==> li in list
    ensures ValidPiece(plan, Piece(si, order)) && StoredPiece(plan, Piece(si, order), data)
  {
    var store: seq<Hash>, ord: seq<nat>, levels: seq<Level> :|
      && IsStore(hp, leaves, store) && multiset(ord) == multiset(list) && Ascending(ord) && InSubtree(plan.hps, ord)
      && Extracted(plan.hps, Log2(plan.hps), si, Cached(leaves, store), ord, levels)
      && data == FragmentBytes(levels);
    order := ord;
    StoreUnique(hp, leaves, store, plan.subtrees[si].store);
    assert plan.subtrees[si] == Cached(leaves, store);
    PermutationNoRepeats(list, ord);
    BelowBound(ord, plan.hps);
    forall li
      ensures li in ord <==> li in list
    {
      PermutationMember(ord, list, li);
    }
    hide Extracted, FragmentBytes, IsStore;
  }

  /** A token's stored fragment is a piece of the plan, for its positions in ascending order. */
  lemma StoredFragment(hp: HashFn, cfg: Config, s: State, w: nat, filed: seq<seq<Hash>>, leaves: seq<seq<Hash>>,
                       loaded: set<nat>, ti: nat, si: nat) returns (order: seq<nat>)
    requires Provable(cfg) && Shaped(cfg, s) && w < cfg.miners && BlockCoherent(hp, cfg, s, w, filed, leaves)
    requires (forall x :: x in loaded ==> x < cfg.subtrees) && si in loaded && ti < cfg.businesses
    requires cfg.fragments && PositionsOf(s, w, si, ti) != []
    ensures (w, ti, si) in s.frags && InSubtree(cfg.hps, order)
    ensures forall li :: li in order <==> li in PositionsOf(s, w, si, ti)
    ensures var plan := PlanFor(hp, cfg, s, w, loaded);
      && ValidPlan(plan) && ValidPiece(plan, Piece(si, order))
      && StoredPiece(plan, Piece(si, order), s.frags[(w, ti, si)])
  {
    PlanGenuine(hp, cfg, s, w, filed, leaves, loaded);
    var plan := PlanFor(hp, cfg, s, w, loaded);
    GenuineFacts(hp, leaves, plan);
    PlanSubtree(hp, leaves, plan, si);
    assert Coherent(hp, cfg, s, w, si, filed[si], leaves[si]);
    var list := PositionsOf(s, w, si, ti);
    assert FragmentFor(hp, cfg.hps, si, leaves[si], list, s.frags[(w, ti, si)]);
    assert Filed(cfg.businesses, filed[si], list, ti);
    order := FragmentOrder(hp, plan, si, leaves[si], list, s.frags[(w, ti, si)]);
  }

  // ---- Results -------------------------------------------------------------------------------------

  function GlobalIndex(cfg: Config, si: nat, li: nat): nat {
    si * cfg.hps + li
  }

  ghost predicate TxidProved(hp: HashFn, cfg: Config, roots: seq<Hash>, leaves: seq<seq<Hash>>, out: Path, si: nat, li: nat)
    requires |out| > 0 && |roots| > 0 && si < |leaves| && li < |leaves[si]|
  {
    && Entry(GlobalIndex(cfg, si, li), leaves[si][li], true) in out[0]
    && ComputeRoot(hp, out, leaves[si][li]) == Some(Root(hp, roots))
  }

  ghost predicate TxidsProved(hp: HashFn, cfg: Config, s: State, w: nat, leaves: seq<seq<Hash>>, ti: nat, loaded: set<nat>, out: Path)
    requires ValidConfig(cfg) && Shaped(cfg, s) && w < cfg.miners && cfg.subtrees > 0 && |out| > 0
    requires |leaves| == cfg.subtrees && forall si :: 0 <= si < |leaves| ==> |leaves[si]| == cfg.hps
  {
    forall si, li :: si in loaded && 0 <= si < cfg.subtrees && 0 <= li < cfg.hps && li in PositionsOf(s, w, si, ti) ==>
      TxidProved(hp, cfg, s.roots[w], leaves, out, si, li)
  }

  /**
    bytes prove the token's txids in the loaded subtrees, and flag no others: a reader recovers the whole path, which
    holds each of those txids and computes from it the root over the recorded subtree roots.
   */
  ghost predicate Proves(hp: HashFn, cfg: Config, s: State, w: nat, leaves: seq<seq<Hash>>, ti: nat, loaded: set<nat>,
                         blockHeight: nat, bytes: Data)
    requires ValidConfig(cfg) && Shaped(cfg, s) && w < cfg.miners && cfg.subtrees > 0
    requires |leaves| == cfg.subtrees && forall si :: 0 <= si < |leaves| ==> |leaves[si]| == cfg.hps
  {
    exists out: Path :: |out| > 0
      && ReadBump(bytes) == Some((blockHeight, PathListed(out), []))
      && TxidsProved(hp, cfg, s, w, leaves, ti, loaded, out)
      && (forall e :: e in out[0] && e.txid ==> e.offset in TokenGlobals(cfg, s, w, ti, loaded))
  }

  /** The fragment path's result for a token: every loaded fragment a piece, and the pieces assembled. */
  ghost predicate FromFragments(plan: Plan, owned: set<nat>, pieces: seq<Piece>, data: seq<Data>, blockHeight: nat, out: Path, bytes: Data) {
    && StoredPieces(plan, pieces, data) && |pieces| < U32 && OwnedBy(plan, pieces) == owned
    && AssembledFromFragments(plan, data, blockHeight, out, bytes)
  }

  /** The fallback path's result for a token: its positions in the loaded subtrees, in order, assembled. */
  ghost predicate FromSubtrees(plan: Plan, owned: set<nat>, order: seq<Pos>, blockHeight: nat, out: Path, bytes: Data) {
    && ValidPositions(plan, order) && Increasing(order) && Globals(order) == owned
    && (forall i :: 0 <= i < |order| ==> order[i].si in plan.subtrees)
    && Assembled(plan, order, blockHeight, out, bytes)
  }

  lemma LeafOf(cfg: Config, leaves: seq<seq<Hash>>, si: nat, li: nat)
    requires cfg.hps >= 2 && IsPow2(cfg.hps) && Uniform(leaves, Log2(cfg.hps)) && si < |leaves| && li < cfg.hps
    ensures |leaves[si]| == cfg.hps && LeafAt(leaves, Log2(cfg.hps), si * cfg.hps + li) == leaves[si][li]
  {
    DivModSplit(si, li, cfg.hps);
  }

  lemma OneProved(hp: HashFn, cfg: Config, s: State, w: nat, leaves: seq<seq<Hash>>, ti: nat, loaded: set<nat>, out: Path, si: nat, li: nat)
    requires w < |s.index| && si in loaded && li < cfg.hps && li in PositionsOf(s, w, si, ti)
    requires cfg.hps >= 2 && IsPow2(cfg.hps) && si < |leaves| && |leaves[si]| == cfg.hps
    requires |out| > 0 && Uniform(leaves, Log2(cfg.hps)) && forall i :: 0 <= i < |leaves| ==> |leaves[i]| > 0
    requires forall g :: g in TokenGlobals(cfg, s, w, ti, loaded) ==>
      && Entry(g, LeafAt(leaves, Log2(cfg.hps), g), true) in out[0]
      && ComputeRoot(hp, out, LeafAt(leaves, Log2(cfg.hps), g)) == Some(Root(hp, Roots(hp, leaves)))
    ensures TxidProved(hp, cfg, Roots(hp, leaves), leaves, out, si, li)
  {
    InGlobals(cfg, s, w, ti, loaded, si, li);
    LeafOf(cfg, leaves, si, li);
    var g := si * cfg.hps + li;
    assert g in TokenGlobals(cfg, s, w, ti, loaded);
    hide Root, Roots, ComputeRoot, LeafAt, Uniform, PositionsOf, TokenGlobals, IsPow2, Log2;
  }

  /** Each owned index is proved, so each of the token's txids is. */
  lemma OwnedProved(hp: HashFn, cfg: Config, s: State, w: nat, filed: seq<seq<Hash>>, leaves: seq<seq<Hash>>, ti: nat,
                    loaded: set<nat>, out: Path)
    requires Provable(cfg) && Shaped(cfg, s) && w < cfg.miners && BlockCoherent(hp, cfg, s, w, filed, leaves)
    requires forall si :: si in loaded ==> si < cfg.subtrees
    requires |out| > 0
    requires |leaves| > 0 && Uniform(leaves, Log2(cfg.hps)) && forall i :: 0 <= i < |leaves| ==> |leaves[i]| > 0
    requires forall g :: g in TokenGlobals(cfg, s, w, ti, loaded) ==>
      && Entry(g, LeafAt(leaves, Log2(cfg.hps), g), true) in out[0]
      && ComputeRoot(hp, out, LeafAt(leaves, Log2(cfg.hps), g)) == Some(Root(hp, Roots(hp, leaves)))
    ensures |leaves| == cfg.subtrees && forall si :: 0 <= si < |leaves| ==> |leaves[si]| == cfg.hps
    ensures TxidsProved(hp, cfg, s, w, leaves, ti, loaded, out)
  {
    BlockRoots(hp, cfg, s, w, filed, leaves);
    hide Root, Roots, ComputeRoot, LeafAt, Uniform, BlockCoherent, PositionsOf, TokenGlobals, IsPow2, Log2, NoEmptyLists, TxidProved;
    forall si, li | si in loaded && 0 <= li < cfg.hps && li in PositionsOf(s, w, si, ti)
      ensures TxidProved(hp, cfg, s.roots[w], leaves, out, si, li)
    {
      OneProved(hp, cfg, s, w, leaves, ti, loaded, out, si, li);
    }
  }

  lemma FragmentBytesOf(plan: Plan, owned: set<nat>, pieces: seq<Piece>, data: seq<Data>, blockHeight: nat, out: Path, bytes: Data)
    requires FromFragments(plan, owned, pieces, data, blockHeight, out, bytes)
    ensures AssembledFromFragments(plan, data, blockHeight, out, bytes)
  {}

  lemma ProvesBy(hp: HashFn, cfg: Config, s: State, w: nat, leaves: seq<seq<Hash>>, ti: nat, loaded: set<nat>,
                 blockHeight: nat, out: Path, bytes: Data)
    requires ValidConfig(cfg) && Shaped(cfg, s) && w < cfg.miners && cfg.subtrees > 0
    requires |leaves| == cfg.subtrees && forall si :: 0 <= si < |leaves| ==> |leaves[si]| == cfg.hps
    requires |out| > 0 && ReadBump(bytes) == Some((blockHeight, PathListed(out), []))
    requires TxidsProved(hp, cfg, s, w, leaves, ti, loaded, out)
    requires forall e :: e in out[0] && e.txid ==> e.offset in TokenGlobals(cfg, s, w, ti, loaded)
    ensures Proves(hp, cfg, s, w, leaves, ti, loaded, blockHeight, bytes)
  {
    hide ReadBump, PathListed, TxidsProved, TokenGlobals, Shaped;
  }

  /** End to end from a coherent ledger, fragment path. */
  lemma FragmentsProve(hp: HashFn, cfg: Config, s: State, w: nat, filed: seq<seq<Hash>>, leaves: seq<seq<Hash>>, ti: nat,
                       loaded: set<nat>, pieces: seq<Piece>, data: seq<Data>, blockHeight: nat, out: Path, bytes: Data)
    requires Provable(cfg) && Shaped(cfg, s) && w < cfg.miners && BlockCoherent(hp, cfg, s, w, filed, leaves)
    requires (forall si :: si in loaded ==> si < cfg.subtrees) && blockHeight < U32
    requires FromFragments(PlanFor(hp, cfg, s, w, loaded), TokenGlobals(cfg, s, w, ti, loaded), pieces, data, blockHeight, out, bytes)
    ensures |leaves| == cfg.subtrees && forall si :: 0 <= si < |leaves| ==> |leaves[si]| == cfg.hps
    ensures Proves(hp, cfg, s, w, leaves, ti, loaded, blockHeight, bytes)
  {
    var plan := PlanFor(hp, cfg, s, w, loaded);
    assert StoredPieces(plan, pieces, data) && |pieces| < U32 && OwnedBy(plan, pieces) == TokenGlobals(cfg, s, w, ti, loaded);
    assert plan.height == Log2(cfg.hps) && cfg.subtrees > 0;
    hide *;
    PlanGenuine(hp, cfg, s, w, filed, leaves, loaded);
    GenuineFacts(hp, leaves, plan);
    BlockRoots(hp, cfg, s, w, filed, leaves);
    FragmentBytesOf(plan, TokenGlobals(cfg, s, w, ti, loaded), pieces, data, blockHeight, out, bytes);
    FragmentEndToEnd(hp, leaves, plan, pieces, data, blockHeight, out, bytes);
    OwnedProved(hp, cfg, s, w, filed, leaves, ti, loaded, out);
    ProvesBy(hp, cfg, s, w, leaves, ti, loaded, blockHeight, out, bytes);
  }

  lemma OrderSize(plan: Plan, order: seq<Pos>, count: nat)
    requires ValidPositions(plan, order) && Increasing(order) && |plan.topProofs| == count
    ensures |order| <= count * plan.hps
  {
    var gs := seq(|order|, i requires 0 <= i < |order| => order[i].g);
    forall i | 0 <= i < |gs|
      ensures gs[i] < count * plan.hps
    {
      MulStep(order[i].si, count, plan.hps);
    }
    BelowBound(gs, count * plan.hps);
  }

  lemma SubtreesFacts(plan: Plan, owned: set<nat>, order: seq<Pos>, blockHeight: nat, out: Path, bytes: Data)
    requires FromSubtrees(plan, owned, order, blockHeight, out, bytes)
    ensures ValidPositions(plan, order) && Increasing(order) && Globals(order) == owned == Globals(Loaded(plan, order))
    ensures Assembled(plan, order, blockHeight, out, bytes)
  {
    LoadedAll(plan, order);
  }

  /** An owned index is the position of an owned txid, so what holds of the order's positions holds of it. */
  lemma OrderCovers(hp: HashFn, leaves: seq<seq<Hash>>, plan: Plan, owned: set<nat>, order: seq<Pos>, blockHeight: nat,
                    out: Path, bytes: Data, g: nat)
    requires Genuine(hp, leaves, plan) && FromSubtrees(plan, owned, order, blockHeight, out, bytes) && g in owned
    requires |out| > 0 && Uniform(leaves, plan.height) && forall i :: 0 <= i < |leaves| ==> |leaves[i]| > 0
    requires forall i :: 0 <= i < |order| && order[i].si in plan.subtrees ==>
      && order[i].si < |leaves| && order[i].li < |leaves[order[i].si]|
      && Entry(order[i].g, leaves[order[i].si][order[i].li], true) in out[0]
      && ComputeRoot(hp, out, leaves[order[i].si][order[i].li]) == Some(Root(hp, Roots(hp, leaves)))
    ensures Entry(g, LeafAt(leaves, plan.height, g), true) in out[0]
    ensures ComputeRoot(hp, out, LeafAt(leaves, plan.height, g)) == Some(Root(hp, Roots(hp, leaves)))
  {
    var i :| 0 <= i < |order| && order[i].g == g;
    var p := order[i];
    assert ValidPos(plan.hps, p) && p.si in plan.subtrees;
    hide Root, Roots, ComputeRoot, LeafAt, Assembled;
    OwnedLeaf(hp, leaves, plan, p);
  }

  lemma UniformSizes(leaves: seq<seq<Hash>>, height: nat)
    requires Uniform(leaves, height)
    ensures |leaves| > 0 && forall i :: 0 <= i < |leaves| ==> |leaves[i]| > 0
  {
    var p := Pow2(height);
    hide Pow2;
  }

  lemma OrderInRange(hp: HashFn, leaves: seq<seq<Hash>>, plan: Plan, order: seq<Pos>)
    requires Genuine(hp, leaves, plan) && ValidPositions(plan, order)
    ensures forall i :: 0 <= i < |order| ==> order[i].si < |leaves| && order[i].li < |leaves[order[i].si]|
  {
    hide IsPow2, IsStore, ProofOf, Log2;
  }

  lemma OffsetOwned(order: seq<Pos>, g: nat)
    requires exists i :: 0 <= i < |order| && order[i].g == g
    ensures g in Globals(order)
  {}

  /** The just-in-time theorem in terms of the owned indices. */
  lemma OrderEndToEnd(hp: HashFn, leaves: seq<seq<Hash>>, plan: Plan, owned: set<nat>, order: seq<Pos>, blockHeight: nat,
                      out: Path, bytes: Data)
    requires Genuine(hp, leaves, plan) && WithinLimits(plan, |leaves|) && blockHeight < U32
    requires FromSubtrees(plan, owned, order, blockHeight, out, bytes) && 2 * |order| < U64
    ensures ReadBump(bytes) == Some((blockHeight, PathListed(out), []))
    ensures |out| > 0 && Uniform(leaves, plan.height) && forall i :: 0 <= i < |leaves| ==> |leaves[i]| > 0
    ensures forall g :: g in owned ==>
      && Entry(g, LeafAt(leaves, plan.height, g), true) in out[0]
      && ComputeRoot(hp, out, LeafAt(leaves, plan.height, g)) == Some(Root(hp, Roots(hp, leaves)))
    ensures forall e :: e in out[0] && e.txid ==> e.offset in owned
  {
    hide *;
    GenuineFacts(hp, leaves, plan);
    UniformSizes(leaves, plan.height);
    SubtreesFacts(plan, owned, order, blockHeight, out, bytes);
    JitEndToEnd(hp, leaves, plan, order, blockHeight, out, bytes);
    OrderInRange(hp, leaves, plan, order);
    forall g | g in owned
      ensures Entry(g, LeafAt(leaves, plan.height, g), true) in out[0]
      ensures ComputeRoot(hp, out, LeafAt(leaves, plan.height, g)) == Some(Root(hp, Roots(hp, leaves)))
    {
      OrderCovers(hp, leaves, plan, owned, order, blockHeight, out, bytes, g);
    }
    forall e | e in out[0] && e.txid
      ensures e.offset in owned
    {
      OffsetOwned(order, e.offset);
    }
  }

  lemma OrderFits(hp: HashFn, cfg: Config, s: State, w: nat, loaded: set<nat>, owned: set<nat>, order: seq<Pos>,
                  blockHeight: nat, out: Path, bytes: Data)
    requires Provable(cfg) && Shaped(cfg, s) && w < cfg.miners
    requires FromSubtrees(PlanFor(hp, cfg, s, w, loaded), owned, order, blockHeight, out, bytes)
    ensures 2 * |order| < U64
  {
    OrderSize(PlanFor(hp, cfg, s, w, loaded), order, cfg.subtrees);
  }

  /** End to end from a coherent ledger, fallback path. */
  lemma SubtreesProve(hp: HashFn, cfg: Config, s: State, w: nat, filed: seq<seq<Hash>>, leaves: seq<seq<Hash>>, ti: nat,
                      loaded: set<nat>, order: seq<Pos>, blockHeight: nat, out: Path, bytes: Data)
    requires Provable(cfg) && Shaped(cfg, s) && w < cfg.miners && BlockCoherent(hp, cfg, s, w, filed, leaves)
    requires (forall si :: si in loaded ==> si < cfg.subtrees) && blockHeight < U32
    requires FromSubtrees(PlanFor(hp, cfg, s, w, loaded), TokenGlobals(cfg, s, w, ti, loaded), order, blockHeight, out, bytes)
    ensures |leaves| == cfg.subtrees && forall si :: 0 <= si < |leaves| ==> |leaves[si]| == cfg.hps
    ensures Proves(hp, cfg, s, w, leaves, ti, loaded, blockHeight, bytes)
  {
    var plan, owned := PlanFor(hp, cfg, s, w, loaded), TokenGlobals(cfg, s, w, ti, loaded);
    assert plan.height == Log2(cfg.hps) && cfg.subtrees > 0;
    hide *;
    PlanGenuine(hp, cfg, s, w, filed, leaves, loaded);
    BlockRoots(hp, cfg, s, w, filed, leaves);
    OrderFits(hp, cfg, s, w, loaded, owned, order, blockHeight, out, bytes);
    OrderEndToEnd(hp, leaves, plan, owned, order, blockHeight, out, bytes);
    OwnedProved(hp, cfg, s, w, filed, leaves, ti, loaded, out);
    ProvesBy(hp, cfg, s, w, leaves, ti, loaded, blockHeight, out, bytes);
  }

  /**
    Whichever way the pipeline assembles a token from the same loaded subtrees, the paths hold the same entries at
    every level, and the bytes are the same when the token owns no whole sibling pair.
   */
  lemma ModesAgree(hp: HashFn, cfg: Config, s: State, w: nat, filed: seq<seq<Hash>>, leaves: seq<seq<Hash>>, ti: nat, loaded: set<nat>,
                   blockHeight: nat, order: seq<Pos>, jit: Path, jitBytes: Data,
                   pieces: seq<Piece>, data: seq<Data>, frag: Path, fragBytes: Data)
    requires Provable(cfg) && Shaped(cfg, s) && w < cfg.miners && BlockCoherent(hp, cfg, s, w, filed, leaves)
    requires forall si :: si in loaded ==> si < cfg.subtrees
    requires var plan, owned := PlanFor(hp, cfg, s, w, loaded), TokenGlobals(cfg, s, w, ti, loaded);
      && FromSubtrees(plan, owned, order, blockHeight, jit, jitBytes)
      && FromFragments(plan, owned, pieces, data, blockHeight, frag, fragBytes)
    ensures |jit| == |frag| && forall h :: 0 <= h < |jit| ==> multiset(jit[h]) == multiset(frag[h])
    ensures NoPairWhollyOwned(TokenGlobals(cfg, s, w, ti, loaded)) ==> jitBytes == fragBytes
  {
    var plan, owned := PlanFor(hp, cfg, s, w, loaded), TokenGlobals(cfg, s, w, ti, loaded);
    assert StoredPieces(plan, pieces, data) && OwnedBy(plan, pieces) == owned;
    hide *;
    PlanGenuine(hp, cfg, s, w, filed, leaves, loaded);
    SubtreesFacts(plan, owned, order, blockHeight, jit, jitBytes);
    FragmentBytesOf(plan, owned, pieces, data, blockHeight, frag, fragBytes);
    PathsAgree(hp, leaves, plan, blockHeight, order, jit, jitBytes, pieces, data, frag, fragBytes);
  }

  // ---- The fragment path reads no subtrees ---------------------------------------------------------

  ghost predicate SameShape(a: Plan, b: Plan) {
    a.hps == b.hps && a.height == b.height && a.topHeight == b.topHeight && a.topProofs == b.topProofs
  }

  lemma {:induction false} TopEmitsSame(a: Plan, b: Plan, k: nat, ps: seq<Pos>)
    requires ValidPlan(a) && ValidPlan(b) && SameShape(a, b) && k >= a.height && AllReadable(a, k, ps)
    ensures AllReadable(b, k, ps) && Emitted(Local, a, k, ps) == Emitted(Local, b, k, ps)
  {
    if ps != [] {
      var init, p := ps[..|ps| - 1], ps[|ps| - 1];
      assert Readable(a, k, p) && Readable(b, k, p);
      TopEmitsSame(a, b, k, init);
      assert SibEntry(a, k, p) == SibEntry(b, k, p);
    }
  }

  lemma SameAssembly(a: Plan, b: Plan, data: seq<Data>, blockHeight: nat, out: Path, bytes: Data)
    requires ValidPlan(a) && ValidPlan(b) && SameShape(a, b) && AssembledFromFragments(a, data, blockHeight, out, bytes)
    ensures AssembledFromFragments(b, data, blockHeight, out, bytes)
  {
    var raw :| RawFromFragments(a, Parsed(data), raw) && Finished(raw, out);
    hide Joined, Emitted, AllReadable, Finished, BumpBytes, Parse;
    forall k | a.height <= k < |raw|
      ensures AllReadable(b, k, TxidPositions(b.hps, Joined(Parsed(data), b.height, 0)))
      ensures raw[k] == Emitted(Local, b, k, TxidPositions(b.hps, Joined(Parsed(data), b.height, 0)))
    {
      TopEmitsSame(a, b, k, TxidPositions(a.hps, Joined(Parsed(data), a.height, 0)));
    }
    assert RawFromFragments(b, Parsed(data), raw);
  }
}
