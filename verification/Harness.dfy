/** The harness's phases 2 to 4 in one run: seal, finalize, process; and what holds at the end of every run. */
module Harness {
  import opened Hashes
  import opened Bytes
  import opened Tree
  import opened Block
  import opened Bump
  import opened BumpCodec
  import opened Sorting
  import opened TokenIndex
  import opened Ledger
  import opened Sealing
  import opened Registry
  import opened Pipeline
  import opened Process
  import opened Pool

  /** The leaves every subtree of miner w was sealed with. */
  ghost function SealedLeaves(cfg: Config, txids: seq<Hash>, draws: Draws, w: nat): (r: seq<seq<Hash>>)
    requires |txids| == cfg.subtrees * cfg.hps && w < cfg.miners && DrawsFit(cfg, draws)
    ensures |r| == cfg.subtrees && forall si :: 0 <= si < |r| ==> |r[si]| == cfg.hps
  {
    seq(cfg.subtrees, si requires 0 <= si < cfg.subtrees => MinerLeaves(cfg, txids, draws, w, si))
  }

  /** ... and the leaves at the end: the coinbase in place of the first txid. */
  ghost function FinalLeaves(cfg: Config, txids: seq<Hash>, draws: Draws, w: nat, coinbase: Hash): (r: seq<seq<Hash>>)
    requires |txids| == cfg.subtrees * cfg.hps && |txids| > 0 && w < cfg.miners && DrawsFit(cfg, draws)
    ensures |r| == cfg.subtrees && forall si :: 0 <= si < |r| ==> |r[si]| == cfg.hps
  {
    var sealed := SealedLeaves(cfg, txids, draws, w);
    assert cfg.subtrees > 0;
    sealed[0 := ReplaceFirst(sealed[0], txids[0], coinbase)]
  }

  lemma SliceReplaced(cfg: Config, txids: seq<Hash>, coinbase: Hash, si: nat)
    requires |txids| == cfg.subtrees * cfg.hps && cfg.hps > 0 && si < cfg.subtrees && |txids| > 0
    ensures Slice(cfg, txids[0 := coinbase], si) ==
            if si == 0 then Slice(cfg, txids, 0)[0 := coinbase] else Slice(cfg, txids, si)
    ensures cfg.subtrees > 0 && Slice(cfg, txids, 0)[0] == txids[0]
  {
    var after := txids[0 := coinbase];
    var now, was, lo := Slice(cfg, after, si), Slice(cfg, txids, si), si * cfg.hps;
    forall i | 0 <= i < cfg.hps
      ensures now[i] == if si == 0 && i == 0 then coinbase else was[i]
    {
      SliceAt(cfg, after, si, lo, i);
      SliceAt(cfg, txids, si, lo, i);
      hide Slice;
    }
    SliceAt(cfg, txids, 0, 0, 0);
  }

  /** The first txid sits in subtree 0 of every miner, so the replacement changes exactly one leaf of the block. */
  lemma CoinbaseLeaf(cfg: Config, txids: seq<Hash>, draws: Draws, w: nat, coinbase: Hash) returns (j: nat)
    requires ValidConfig(cfg) && ValidTxids(cfg, txids) && cfg.subtrees > 0 && w < cfg.miners && DrawsFit(cfg, draws) && |txids| > 0
    ensures j < cfg.hps
    ensures var sealed, final := SealedLeaves(cfg, txids, draws, w), FinalLeaves(cfg, txids, draws, w, coinbase);
      && sealed[0][j] == txids[0] && final[0] == sealed[0][j := coinbase]
      && forall si :: 0 < si < cfg.subtrees ==> final[si] == sealed[si]
  {
    var base, mine := Slice(cfg, txids, 0), MinerLeaves(cfg, txids, draws, w, 0);
    SliceDistinct(cfg, txids, draws, w, 0);
    assert base[0] == txids[0];
    PermutationMember(base, mine, txids[0]);
    j :| 0 <= j < |mine| && mine[j] == txids[0];
    SwapHitsOne(mine, txids[0], coinbase, j);
  }

  lemma LeavesOf(cfg: Config, txids: seq<Hash>, draws: Draws, w: nat)
    requires |txids| == cfg.subtrees * cfg.hps && w < cfg.miners && DrawsFit(cfg, draws)
    ensures forall si :: 0 <= si < cfg.subtrees ==> SealedLeaves(cfg, txids, draws, w)[si] == MinerLeaves(cfg, txids, draws, w, si)
  {
    hide MinerLeaves;
  }

  /** Txid g of the block at the end: the coinbase took the first one's place. */
  function FinalTxid(txids: seq<Hash>, coinbase: Hash, g: nat): Hash
    requires g < |txids|
  {
    if g == 0 then coinbase else txids[g]
  }

  /** Nothing is dropped or made up: the block's subtrees end to end are its txids in some order, with one coinbase. */
  lemma BlockConserved(cfg: Config, txids: seq<Hash>, draws: Draws, w: nat, coinbase: Hash)
    requires ValidConfig(cfg) && ValidTxids(cfg, txids) && w < cfg.miners && DrawsFit(cfg, draws) && |txids| > 0
    ensures multiset(EndToEnd(SealedLeaves(cfg, txids, draws, w))) == multiset(txids)
    ensures multiset(EndToEnd(FinalLeaves(cfg, txids, draws, w, coinbase))) == multiset(txids[0 := coinbase])
  {
    var sealed, final := SealedLeaves(cfg, txids, draws, w), FinalLeaves(cfg, txids, draws, w, coinbase);
    var after := txids[0 := coinbase];
    LeavesOf(cfg, txids, draws, w);
    assert cfg.subtrees > 0;
    var j := CoinbaseLeaf(cfg, txids, draws, w, coinbase);
    SlicesJoin(cfg, txids, cfg.subtrees);
    SlicesJoin(cfg, after, cfg.subtrees);
    var was, now := Slices(cfg, txids, cfg.subtrees), Slices(cfg, after, cfg.subtrees);
    forall si | 0 <= si < cfg.subtrees
      ensures multiset(was[si]) == multiset(sealed[si]) && multiset(now[si]) == multiset(final[si])
    {
      SliceDistinct(cfg, txids, draws, w, si);
      SliceReplaced(cfg, txids, coinbase, si);
    }
    hide *;
    EachPermuted(was, sealed);
    EachPermuted(now, final);
  }

  lemma LeafIn(leaves: seq<Hash>, txid: Hash) returns (li: nat)
    requires txid in leaves
    ensures li < |leaves| && leaves[li] == txid
  {
    li :| 0 <= li < |leaves| && leaves[li] == txid;
  }

  lemma FirstElsewhere(txids: seq<Hash>, g: nat)
    requires NoRepeats(txids) && 0 < g < |txids|
    ensures txids[g] != txids[0]
  {}

  lemma LaterTxid(txids: seq<Hash>, coinbase: Hash, g: nat)
    requires 0 < g < |txids|
    ensures FinalTxid(txids, coinbase, g) == txids[g]
  {}

  /** Each txid has its place: in the subtree its index says, at one leaf, before and after the coinbase swap. */
  lemma TxidPlace(cfg: Config, txids: seq<Hash>, draws: Draws, w: nat, coinbase: Hash, g: nat, si: nat) returns (li: nat)
    requires ValidConfig(cfg) && cfg.hps > 0 && ValidTxids(cfg, txids) && w < cfg.miners && DrawsFit(cfg, draws) && g < |txids|
    requires si == g / cfg.hps
    ensures si < cfg.subtrees && li < cfg.hps
    ensures SealedLeaves(cfg, txids, draws, w)[si][li] == txids[g]
    ensures FinalLeaves(cfg, txids, draws, w, coinbase)[si][li] == FinalTxid(txids, coinbase, g)
  {
    TxidPlaced(cfg, txids, draws, w, g);
    Distinct(cfg, txids);
    LeavesOf(cfg, txids, draws, w);
    var j := CoinbaseLeaf(cfg, txids, draws, w, coinbase);
    if g == 0 {
      li := j;
      assert si == 0;
    } else {
      hide *;
      FirstElsewhere(txids, g);
      li := LeafIn(SealedLeaves(cfg, txids, draws, w)[si], txids[g]);
      LaterTxid(txids, coinbase, g);
    }
  }

  /** A txid's BUMP proves it: read back from the bytes, it computes the root of the miner's block. */
  ghost predicate TxidReaches(hp: HashFn, root: Hash, blockHeight: nat, bytes: Data, g: nat, txid: Hash) {
    exists out: Path :: |out| > 0
      && ReadBump(bytes) == Some((blockHeight, PathListed(out), []))
      && Entry(g, txid, true) in out[0]
      && ComputeRoot(hp, out, txid) == Some(root)
  }

  /** The token txid i of subtree si was filed under when the subtree was sealed. */
  ghost function FiledToken(cfg: Config, filed: seq<seq<Hash>>, si: nat, li: nat): nat
    requires cfg.businesses > 0 && si < |filed| && li < |filed[si]|
  {
    TokenOf(cfg.businesses, filed[si][li])
  }

  /** Txid li of subtree si is proved by the BUMP of the token it was filed under. */
  ghost predicate Served(hp: HashFn, cfg: Config, roots: seq<Hash>, filed: seq<seq<Hash>>, leaves: seq<seq<Hash>>,
                         blockHeight: nat, bumps: map<nat, Data>, si: nat, li: nat)
    requires cfg.businesses > 0 && |roots| > 0 && si < |filed| && li < |filed[si]| && si < |leaves| && li < |leaves[si]|
  {
    var ti := FiledToken(cfg, filed, si, li);
    && ti in bumps
    && TxidReaches(hp, Root(hp, roots), blockHeight, bumps[ti], GlobalIndex(cfg, si, li), leaves[si][li])
  }

  lemma ServedBy(hp: HashFn, cfg: Config, roots: seq<Hash>, filed: seq<seq<Hash>>, leaves: seq<seq<Hash>>,
                 blockHeight: nat, bumps: map<nat, Data>, si: nat, li: nat)
    requires cfg.businesses > 0 && |roots| > 0 && si < |filed| && li < |filed[si]| && si < |leaves| && li < |leaves[si]|
    requires var ti := FiledToken(cfg, filed, si, li);
      ti in bumps && TxidReaches(hp, Root(hp, roots), blockHeight, bumps[ti], GlobalIndex(cfg, si, li), leaves[si][li])
    ensures Served(hp, cfg, roots, filed, leaves, blockHeight, bumps, si, li)
  {
    hide FiledToken, TxidReaches, GlobalIndex;
  }

  lemma LoadableHere(cfg: Config, s: State, w: nat, ti: nat, lost: set<nat>, si: nat, li: nat)
    requires w < |s.index| && si < cfg.subtrees && si !in lost && li in PositionsOf(s, w, si, ti)
    ensures si in Loadable(cfg, s, w, ti, lost)
  {}

  /** A token with something it could load whatever reads fail has a BUMP. */
  lemma BumpHere(hp: HashFn, cfg: Config, s: State, w: nat, filed: seq<seq<Hash>>, leaves: seq<seq<Hash>>,
                 lost: nat -> set<nat>, blockHeight: nat, bumps: map<nat, Data>, loads: map<nat, set<nat>>, ti: nat, si: nat)
    requires w < |s.index| && ti in loads && si in Loadable(cfg, s, w, ti, lost(ti))
    requires BumpsMade(hp, cfg, s, w, filed, leaves, lost, blockHeight, bumps, loads)
    ensures ti in bumps && si in loads[ti]
    ensures TokenProved(hp, cfg, s, w, filed, leaves, ti, loads[ti], blockHeight, bumps[ti])
  {
    hide Loadable, TokenProved;
    assert MayLoad(cfg, s, w, ti, lost(ti), loads[ti]);
    assert BumpMade(hp, cfg, s, w, filed, leaves, blockHeight, bumps, ti, loads[ti]);
  }

  lemma FiledHere(hp: HashFn, cfg: Config, s: State, w: nat, filed: seq<seq<Hash>>, leaves: seq<seq<Hash>>, si: nat, li: nat)
    requires Ready(hp, cfg, s, w, filed, leaves) && w < |s.index| && si < cfg.subtrees && li < cfg.hps
    requires |filed| == cfg.subtrees && |filed[si]| == cfg.hps && cfg.businesses > 0
    ensures var ti := FiledToken(cfg, filed, si, li); ti < cfg.businesses && li in PositionsOf(s, w, si, ti)
  {
    hide PositionsOf, BytesHashes, IsStore, Root, Fragmented, TokenOf;
    assert Coherent(hp, cfg, s, w, si, filed[si], leaves[si]);
    var ti := FiledToken(cfg, filed, si, li);
    assert Filed(cfg.businesses, filed[si], PositionsOf(s, w, si, ti), ti);
  }

  lemma TxidFrom(hp: HashFn, cfg: Config, s: State, w: nat, filed: seq<seq<Hash>>, leaves: seq<seq<Hash>>,
                 ti: nat, loaded: set<nat>, blockHeight: nat, bytes: Data, si: nat, li: nat)
    requires TokenProved(hp, cfg, s, w, filed, leaves, ti, loaded, blockHeight, bytes)
    requires w < |s.index| && w < |s.roots| && |s.roots[w]| > 0 && si < |leaves| && li < |leaves[si]|
    requires si in loaded && si < cfg.subtrees && li < cfg.hps && li in PositionsOf(s, w, si, ti)
    ensures TxidReaches(hp, Root(hp, s.roots[w]), blockHeight, bytes, GlobalIndex(cfg, si, li), leaves[si][li])
  {
    ReadyFacts(hp, cfg, s, w, filed, leaves);
    assert Proves(hp, cfg, s, w, leaves, ti, loaded, blockHeight, bytes);
    hide Ready, TokenProved, Shaped, BlockCoherent, PositionsOf, ReadBump, PathListed, TokenGlobals, Root, ComputeRoot, GlobalIndex;
    var out: Path :| |out| > 0
      && ReadBump(bytes) == Some((blockHeight, PathListed(out), []))
      && TxidsProved(hp, cfg, s, w, leaves, ti, loaded, out)
      && (forall e :: e in out[0] && e.txid ==> e.offset in TokenGlobals(cfg, s, w, ti, loaded));
    assert TxidProved(hp, cfg, s.roots[w], leaves, out, si, li);
  }

  lemma InBelow(n: nat, ti: nat)
    requires ti < n
    ensures ti in Below(n)
  {}

  lemma TxidServed(hp: HashFn, cfg: Config, s: State, w: nat, filed: seq<seq<Hash>>, leaves: seq<seq<Hash>>,
                   lost: nat -> set<nat>, blockHeight: nat, bumps: map<nat, Data>, loads: map<nat, set<nat>>,
                   si: nat, li: nat)
    requires Ready(hp, cfg, s, w, filed, leaves) && w < |s.index| && si < cfg.subtrees && li < cfg.hps
    requires BumpsMade(hp, cfg, s, w, filed, leaves, lost, blockHeight, bumps, loads) && loads.Keys == Below(cfg.businesses)
    requires |filed| == |leaves| == cfg.subtrees && |filed[si]| == |leaves[si]| == cfg.hps && |s.roots| > w && |s.roots[w]| > 0
    requires cfg.businesses > 0 && si !in lost(FiledToken(cfg, filed, si, li))
    ensures Served(hp, cfg, s.roots[w], filed, leaves, blockHeight, bumps, si, li)
  {
    var ti := FiledToken(cfg, filed, si, li);
    hide *;
    FiledHere(hp, cfg, s, w, filed, leaves, si, li);
    InBelow(cfg.businesses, ti);
    LoadableHere(cfg, s, w, ti, lost(ti), si, li);
    BumpHere(hp, cfg, s, w, filed, leaves, lost, blockHeight, bumps, loads, ti, si);
    TxidFrom(hp, cfg, s, w, filed, leaves, ti, loads[ti], blockHeight, bumps[ti], si, li);
    ServedBy(hp, cfg, s.roots[w], filed, leaves, blockHeight, bumps, si, li);
  }

  /**
    Txid g of the block is in the BUMP of the token that its first eight bytes derive (for the coinbase, those of the txid
    it replaced), at a place in its own subtree, and a reader of the BUMP computes the root from it.
   */
  ghost predicate Delivered(hp: HashFn, cfg: Config, roots: seq<Hash>, txids: seq<Hash>, coinbase: Hash, leaves: seq<seq<Hash>>,
                            blockHeight: nat, bumps: map<nat, Data>, g: nat)
    requires cfg.hps > 0 && cfg.businesses > 0 && |roots| > 0 && g < |txids|
  {
    var ti, si := FirstEight(txids[g]) % cfg.businesses, g / cfg.hps;
    && ti in bumps && si < |leaves|
    && (exists li :: 0 <= li < |leaves[si]|
          && leaves[si][li] == FinalTxid(txids, coinbase, g)
          && TxidReaches(hp, Root(hp, roots), blockHeight, bumps[ti], si * cfg.hps + li, FinalTxid(txids, coinbase, g)))
  }

  lemma ServedDelivers(hp: HashFn, cfg: Config, roots: seq<Hash>, txids: seq<Hash>, coinbase: Hash, filed: seq<seq<Hash>>,
                       leaves: seq<seq<Hash>>, blockHeight: nat, bumps: map<nat, Data>, g: nat, si: nat, li: nat)
    requires cfg.hps > 0 && cfg.businesses > 0 && |roots| > 0 && g < |txids| && si == g / cfg.hps
    requires si < |filed| && li < |filed[si]| && si < |leaves| && li < |leaves[si]|
    requires filed[si][li] == txids[g] && leaves[si][li] == FinalTxid(txids, coinbase, g)
    requires Served(hp, cfg, roots, filed, leaves, blockHeight, bumps, si, li)
    ensures Delivered(hp, cfg, roots, txids, coinbase, leaves, blockHeight, bumps, g)
  {
    TokenBytes(cfg.businesses, txids[g]);
    hide TxidReaches, TokenOf, FirstEight, FinalTxid;
  }

  lemma FiledTokenBytes(cfg: Config, filed: seq<seq<Hash>>, si: nat, li: nat)
    requires cfg.businesses > 0 && si < |filed| && li < |filed[si]|
    ensures FiledToken(cfg, filed, si, li) == FirstEight(filed[si][li]) % cfg.businesses
  {
    TokenBytes(cfg.businesses, filed[si][li]);
    hide TokenOf, FirstEight;
  }

  /** Every leaf is served whose read did not fail for its token. */
  ghost predicate LeavesServed(hp: HashFn, cfg: Config, roots: seq<Hash>, filed: seq<seq<Hash>>, leaves: seq<seq<Hash>>,
                               lost: nat -> set<nat>, blockHeight: nat, bumps: map<nat, Data>)
    requires cfg.businesses > 0 && |roots| > 0 && |filed| == |leaves| == cfg.subtrees
    requires forall si :: 0 <= si < cfg.subtrees ==> |filed[si]| == |leaves[si]| == cfg.hps
  {
    forall si, li :: 0 <= si < cfg.subtrees && 0 <= li < cfg.hps && si !in lost(FiledToken(cfg, filed, si, li)) ==>
      Served(hp, cfg, roots, filed, leaves, blockHeight, bumps, si, li)
  }

  /** Every txid of the block is delivered whose subtree's read did not fail for its token. */
  ghost predicate BlockDelivered(hp: HashFn, cfg: Config, roots: seq<Hash>, txids: seq<Hash>, coinbase: Hash, leaves: seq<seq<Hash>>,
                                 lost: nat -> set<nat>, blockHeight: nat, bumps: map<nat, Data>)
    requires cfg.hps > 0 && cfg.businesses > 0 && |roots| > 0
  {
    forall g :: 0 <= g < |txids| && g / cfg.hps !in lost(FirstEight(txids[g]) % cfg.businesses) ==>
      Delivered(hp, cfg, roots, txids, coinbase, leaves, blockHeight, bumps, g)
  }

  lemma AllServed(hp: HashFn, cfg: Config, s: State, w: nat, filed: seq<seq<Hash>>, leaves: seq<seq<Hash>>,
                  lost: nat -> set<nat>, blockHeight: nat, bumps: map<nat, Data>, loads: map<nat, set<nat>>)
    requires Ready(hp, cfg, s, w, filed, leaves) && w < |s.index| && cfg.businesses > 0
    requires BumpsMade(hp, cfg, s, w, filed, leaves, lost, blockHeight, bumps, loads) && loads.Keys == Below(cfg.businesses)
    requires |filed| == |leaves| == cfg.subtrees && |s.roots| > w && |s.roots[w]| > 0
    requires forall si :: 0 <= si < cfg.subtrees ==> |filed[si]| == |leaves[si]| == cfg.hps
    ensures LeavesServed(hp, cfg, s.roots[w], filed, leaves, lost, blockHeight, bumps)
  {
    hide Ready, BumpsMade, Below, FiledToken, Served;
    forall si, li | 0 <= si < cfg.subtrees && 0 <= li < cfg.hps && si !in lost(FiledToken(cfg, filed, si, li))
      ensures Served(hp, cfg, s.roots[w], filed, leaves, blockHeight, bumps, si, li)
    {
      TxidServed(hp, cfg, s, w, filed, leaves, lost, blockHeight, bumps, loads, si, li);
    }
  }

  lemma ServedAt(hp: HashFn, cfg: Config, roots: seq<Hash>, filed: seq<seq<Hash>>, leaves: seq<seq<Hash>>,
                 lost: nat -> set<nat>, blockHeight: nat, bumps: map<nat, Data>, si: nat, li: nat)
    requires cfg.businesses > 0 && |roots| > 0 && |filed| == |leaves| == cfg.subtrees
    requires forall si :: 0 <= si < cfg.subtrees ==> |filed[si]| == |leaves[si]| == cfg.hps
    requires LeavesServed(hp, cfg, roots, filed, leaves, lost, blockHeight, bumps) && si < cfg.subtrees && li < cfg.hps
    requires si !in lost(FirstEight(filed[si][li]) % cfg.businesses)
    ensures Served(hp, cfg, roots, filed, leaves, blockHeight, bumps, si, li)
  {
    FiledTokenBytes(cfg, filed, si, li);
    hide FiledToken, FirstEight, Served;
  }

  lemma DeliveredAt(hp: HashFn, cfg: Config, roots: seq<Hash>, txids: seq<Hash>, draws: Draws, w: nat, coinbase: Hash,
                    lost: nat -> set<nat>, blockHeight: nat, bumps: map<nat, Data>, g: nat, si: nat)
    requires ValidConfig(cfg) && cfg.hps > 0 && cfg.businesses > 0 && |roots| > 0
    requires ValidTxids(cfg, txids) && DrawsFit(cfg, draws) && w < cfg.miners && g < |txids| && si == g / cfg.hps
    requires LeavesServed(hp, cfg, roots, SealedLeaves(cfg, txids, draws, w), FinalLeaves(cfg, txids, draws, w, coinbase),
                          lost, blockHeight, bumps)
    requires si !in lost(FirstEight(txids[g]) % cfg.businesses)
    ensures Delivered(hp, cfg, roots, txids, coinbase, FinalLeaves(cfg, txids, draws, w, coinbase), blockHeight, bumps, g)
  {
    Distinct(cfg, txids);
    hide *;
    var filed, leaves := SealedLeaves(cfg, txids, draws, w), FinalLeaves(cfg, txids, draws, w, coinbase);
    var li := TxidPlace(cfg, txids, draws, w, coinbase, g, si);
    ServedAt(hp, cfg, roots, filed, leaves, lost, blockHeight, bumps, si, li);
    ServedDelivers(hp, cfg, roots, txids, coinbase, filed, leaves, blockHeight, bumps, g, si, li);
  }

  lemma AllDelivered(hp: HashFn, cfg: Config, roots: seq<Hash>, txids: seq<Hash>, draws: Draws, w: nat, coinbase: Hash,
                     lost: nat -> set<nat>, blockHeight: nat, bumps: map<nat, Data>)
    requires ValidConfig(cfg) && cfg.hps > 0 && cfg.businesses > 0 && |roots| > 0
    requires ValidTxids(cfg, txids) && DrawsFit(cfg, draws) && w < cfg.miners && |txids| > 0
    requires LeavesServed(hp, cfg, roots, SealedLeaves(cfg, txids, draws, w), FinalLeaves(cfg, txids, draws, w, coinbase),
                          lost, blockHeight, bumps)
    ensures BlockDelivered(hp, cfg, roots, txids, coinbase, FinalLeaves(cfg, txids, draws, w, coinbase), lost, blockHeight, bumps)
  {
    Distinct(cfg, txids);
    hide LeavesServed, SealedLeaves, FinalLeaves, FirstEight, Delivered, ValidTxids, DrawsFit;
    forall g | 0 <= g < |txids| && g / cfg.hps !in lost(FirstEight(txids[g]) % cfg.businesses)
      ensures Delivered(hp, cfg, roots, txids, coinbase, FinalLeaves(cfg, txids, draws, w, coinbase), blockHeight, bumps, g)
    {
      DeliveredAt(hp, cfg, roots, txids, draws, w, coinbase, lost, blockHeight, bumps, g, g / cfg.hps);
    }
  }

  lemma FinishedBlock(hp: HashFn, cfg: Config, a: State, b: State, txids: seq<Hash>, draws: Draws, winner: nat, coinbase: Hash)
    requires Provable(cfg) && Shaped(cfg, a) && Shaped(cfg, b) && ValidTxids(cfg, txids) && DrawsFit(cfg, draws)
    requires winner < cfg.miners && |txids| > 0
    requires forall m, si :: 0 <= m < cfg.miners && 0 <= si < cfg.subtrees ==>
      var leaves := MinerLeaves(cfg, txids, draws, m, si); Coherent(hp, cfg, a, m, si, leaves, leaves)
    requires forall m, si :: 0 <= m < cfg.miners && cfg.subtrees <= si ==> Untouched(cfg, a, m, si)
    requires var sealed := MinerLeaves(cfg, txids, draws, winner, 0);
      Coherent(hp, cfg, b, winner, 0, sealed, ReplaceFirst(sealed, txids[0], coinbase))
    requires SameElsewhere(cfg, a, b, winner, 0)
    ensures Ready(hp, cfg, b, winner, SealedLeaves(cfg, txids, draws, winner), FinalLeaves(cfg, txids, draws, winner, coinbase))
  {
    var filed, leaves := SealedLeaves(cfg, txids, draws, winner), FinalLeaves(cfg, txids, draws, winner, coinbase);
    hide Coherent, SameAt, MinerLeaves, NoEmptyLists, ReplaceFirst, At;
    forall si | 0 <= si < cfg.subtrees
      ensures Coherent(hp, cfg, b, winner, si, filed[si], leaves[si])
    {
      if si > 0 {
        assert SameAt(cfg, a, b, winner, si);
        CoherentFrame(hp, cfg, a, b, winner, si, filed[si], leaves[si]);
      }
    }
    forall t, si | si >= cfg.subtrees
      ensures At(b.index[winner], t, si) == []
    {
      assert SameAt(cfg, a, b, winner, si) && Untouched(cfg, a, winner, si);
      UntouchedFrame(cfg, a, b, winner, si);
    }
  }

  /** Every other miner's subtrees are as they were sealed. */
  ghost predicate OthersSealed(hp: HashFn, cfg: Config, s: State, txids: seq<Hash>, draws: Draws, winner: nat)
    requires ValidConfig(cfg) && Shaped(cfg, s) && ValidTxids(cfg, txids) && DrawsFit(cfg, draws)
  {
    forall m, si :: 0 <= m < cfg.miners && 0 <= si < cfg.subtrees && m != winner ==>
      var leaves := MinerLeaves(cfg, txids, draws, m, si); Coherent(hp, cfg, s, m, si, leaves, leaves)
  }

  lemma OthersKept(hp: HashFn, cfg: Config, a: State, b: State, txids: seq<Hash>, draws: Draws, winner: nat)
    requires ValidConfig(cfg) && Shaped(cfg, a) && Shaped(cfg, b) && ValidTxids(cfg, txids) && DrawsFit(cfg, draws)
    requires forall m, si :: 0 <= m < cfg.miners && 0 <= si < cfg.subtrees ==>
      var leaves := MinerLeaves(cfg, txids, draws, m, si); Coherent(hp, cfg, a, m, si, leaves, leaves)
    requires SameElsewhere(cfg, a, b, winner, 0)
    ensures OthersSealed(hp, cfg, b, txids, draws, winner)
  {
    hide Coherent, SameAt, MinerLeaves, NoEmptyLists, NoRepeats, DrawsFit;
    forall m, si | 0 <= m < cfg.miners && 0 <= si < cfg.subtrees && m != winner
      ensures var leaves := MinerLeaves(cfg, txids, draws, m, si); Coherent(hp, cfg, b, m, si, leaves, leaves)
    {
      var leaves := MinerLeaves(cfg, txids, draws, m, si);
      assert SameAt(cfg, a, b, m, si);
      CoherentFrame(hp, cfg, a, b, m, si, leaves, leaves);
    }
  }

  /** Phases 2 and 4's first half: sealing, then the coinbase in the winner's subtree 0. */
  method SealAndFinalize(hp: HashFn, cfg: Config, txids: seq<Hash>, draws: Draws, winner: nat, coinbase: Hash, numCPU: nat)
    returns (reg: Registry)
    requires Provable(cfg) && ValidTxids(cfg, txids) && DrawsFit(cfg, draws) && winner < cfg.miners && |txids| > 0
    ensures fresh(reg) && reg.hp == hp && reg.cfg == cfg && reg.Valid()
    ensures Ready(hp, cfg, reg.View(), winner, SealedLeaves(cfg, txids, draws, winner), FinalLeaves(cfg, txids, draws, winner, coinbase))
    ensures OthersSealed(hp, cfg, reg.View(), txids, draws, winner)
  {
    assert ValidConfig(cfg) && cfg.subtrees >= 2 && cfg.hps >= 2;
    hide *;
    reg := new Registry(hp, cfg);
    reg.SealSubtreesToDisk(txids, draws, numCPU);
    reg.ValidFacts();
    ghost var a := reg.View();
    ghost var sealed := MinerLeaves(cfg, txids, draws, winner, 0);
    assert Coherent(hp, cfg, a, winner, 0, sealed, sealed);
    LoadedFacts(hp, cfg, a, winner, sealed, sealed);
    IndexedWellFiled(cfg, a, winner, 0, sealed);
    var ok := reg.FinalizeBlock(winner, coinbase, txids[0], numCPU);
    reg.ValidFacts();
    ResealedCoherent(hp, cfg, a, reg.View(), winner, sealed, sealed, ReplaceFirst(sealed, txids[0], coinbase));
    FinishedBlock(hp, cfg, a, reg.View(), txids, draws, winner, coinbase);
    OthersKept(hp, cfg, a, reg.View(), txids, draws, winner);
  }

  /**
    For every block, every jitter, every winner and every coinbase, whichever reads fail: each leaf of the winner's final
    block, unless the read of its subtree or fragment failed for its token, is proved by the BUMP of the token it was
    filed under to the root over the winner's subtree roots; those are the roots of the final leaves. And each of the
    block's txids, with the coinbase for the first, is such a leaf. Other miners' subtrees stay as they were sealed.
   */
  method RunBlock(hp: HashFn, cfg: Config, txids: seq<Hash>, draws: Draws, winner: nat, coinbase: Hash, blockHeight: nat,
                  maxCacheEntries: nat, numCPU: nat, procs: nat, lost: nat -> set<nat>)
    returns (reg: Registry, bumps: map<nat, Data>)
    requires Provable(cfg) && ValidTxids(cfg, txids) && DrawsFit(cfg, draws) && winner < cfg.miners && blockHeight < U32
    requires |txids| > 0
    ensures fresh(reg) && reg.hp == hp && reg.cfg == cfg && reg.Valid()
    ensures winner < |reg.roots| && |reg.roots[winner]| == cfg.subtrees
    ensures reg.roots[winner] == Roots(hp, FinalLeaves(cfg, txids, draws, winner, coinbase))
    ensures LeavesServed(hp, cfg, reg.roots[winner], SealedLeaves(cfg, txids, draws, winner),
                         FinalLeaves(cfg, txids, draws, winner, coinbase), lost, blockHeight, bumps)
    ensures BlockDelivered(hp, cfg, reg.roots[winner], txids, coinbase, FinalLeaves(cfg, txids, draws, winner, coinbase),
                           lost, blockHeight, bumps)
    ensures OthersSealed(hp, cfg, reg.View(), txids, draws, winner)
  {
    assert ValidConfig(cfg) && cfg.subtrees >= 2 && cfg.hps >= 2 && cfg.businesses > 0;
    hide *;
    reg := SealAndFinalize(hp, cfg, txids, draws, winner, coinbase, numCPU);
    reg.ValidFacts();
    ghost var s := reg.View();
    ghost var filed, leaves := SealedLeaves(cfg, txids, draws, winner), FinalLeaves(cfg, txids, draws, winner, coinbase);
    ghost var loads;
    bumps, loads := ProcessBumps(reg, winner, blockHeight, maxCacheEntries, numCPU, procs, lost, filed, leaves);
    reg.ValidFacts();
    ReadyFacts(hp, cfg, s, winner, filed, leaves);
    BlockRoots(hp, cfg, s, winner, filed, leaves);
    RootsCount(cfg, s, winner);
    AllServed(hp, cfg, s, winner, filed, leaves, lost, blockHeight, bumps, loads);
    AllDelivered(hp, cfg, reg.roots[winner], txids, draws, winner, coinbase, lost, blockHeight, bumps);
  }
}
