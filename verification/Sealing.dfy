/**
  The life cycle's bookkeeping on states: what saving, indexing and refreshing one subtree does to the ledger, and
  that it leaves every other subtree as it was.
 */
module Sealing {
  import opened Arith
  import opened Hashes
  import opened Bytes
  import opened Tree
  import opened MerkleStore
  import opened FragmentCodec
  import opened Emit
  import opened Worker
  import opened Fragments
  import opened Sorting
  import opened TokenIndex
  import opened Bump
  import opened Ledger

  // ---- Steps on states -----------------------------------------------------------------------------

  /** A subtree's leaves and store on disk, and its root on record. */
  ghost function SubtreeSaved(s: State, m: nat, si: nat, c: Cached, root: Hash): State
    requires m < |s.roots| && si < |s.roots[m]|
  {
    s.(roots := s.roots[m := s.roots[m][si := root]], disk := s.disk[(m, si) := (HashBytes(c.leaves), HashBytes(c.store))])
  }

  /** t is the name of a token in done. */
  ghost predicate Names(t: string, done: set<nat>) {
    ScanToken(t) in done && t == TokenName(ScanToken(t))
  }

  /** after is before with the batches of the tokens in done appended for subtree si. */
  ghost predicate TokensAdded(before: Entries, after: Entries, si: nat, batches: map<nat, seq<nat>>, done: set<nat>) {
    forall t, s :: At(after, t, s) ==
      if s == si && Names(t, done) then At(before, t, s) + ListOf(batches, ScanToken(t)) else At(before, t, s)
  }

  type FragmentMap = map<(nat, nat, nat), Data>

  /** after is before with the fragments of the tokens in done written. */
  ghost predicate BatchSaved(before: FragmentMap, after: FragmentMap, m: nat, si: nat, fragments: map<nat, Data>, done: set<nat>)
    requires done <= fragments.Keys
  {
    forall m', ti, si' ::
      if m' == m && si' == si && ti in done then (m', ti, si') in after && after[(m', ti, si')] == fragments[ti]
      else if (m', ti, si') in before then (m', ti, si') in after && after[(m', ti, si')] == before[(m', ti, si')]
      else (m', ti, si') !in after
  }

  /** No position is filed and no fragment kept for subtree si of miner m. */
  ghost predicate Untouched(cfg: Config, s: State, m: nat, si: nat)
    requires Shaped(cfg, s) && m < cfg.miners
  {
    (forall t :: At(s.index[m], t, si) == []) && (forall ti :: (m, ti, si) !in s.frags)
  }

  /** Nothing outside subtree si differs between the two states. */
  ghost predicate SameOther(cfg: Config, a: State, b: State, si: nat)
    requires Shaped(cfg, a) && Shaped(cfg, b)
  {
    forall m', si' :: 0 <= m' < cfg.miners && 0 <= si' && si' != si ==> SameAt(cfg, a, b, m', si')
  }

  lemma SameTwice(cfg: Config, a: State, b: State, c: State, m: nat, si: nat)
    requires Shaped(cfg, a) && Shaped(cfg, b) && Shaped(cfg, c) && m < cfg.miners
    requires SameAt(cfg, a, b, m, si) && SameAt(cfg, b, c, m, si)
    ensures SameAt(cfg, a, c, m, si)
  {}

  lemma SameOtherStep(cfg: Config, a: State, b: State, c: State, m: nat, si: nat)
    requires Shaped(cfg, a) && Shaped(cfg, b) && Shaped(cfg, c)
    requires SameOther(cfg, a, b, si) && SameElsewhere(cfg, b, c, m, si)
    ensures SameOther(cfg, a, c, si)
  {
    forall m', si' | 0 <= m' < cfg.miners && 0 <= si' && si' != si
      ensures SameAt(cfg, a, c, m', si')
    {
      SameTwice(cfg, a, b, c, m', si');
    }
  }

  lemma StoredFrame(hp: HashFn, cfg: Config, a: State, b: State, m: nat, si: nat, leaves: seq<Hash>)
    requires ValidConfig(cfg) && Shaped(cfg, a) && Shaped(cfg, b) && m < cfg.miners && si < cfg.subtrees
    requires Stored(hp, cfg, a, m, si, leaves) && SameAt(cfg, a, b, m, si)
    ensures Stored(hp, cfg, b, m, si, leaves)
  {}

  lemma UntouchedFrame(cfg: Config, a: State, b: State, m: nat, si: nat)
    requires Shaped(cfg, a) && Shaped(cfg, b) && m < cfg.miners
    requires Untouched(cfg, a, m, si) && SameAt(cfg, a, b, m, si)
    ensures Untouched(cfg, b, m, si)
  {}

  ghost predicate Built(hp: HashFn, hps: nat, c: Cached, leaves: seq<Hash>)
    requires hps >= 2
  {
    c.leaves == leaves && |leaves| == hps && IsStore(hp, leaves, c.store)
  }

  lemma BuiltFacts(hp: HashFn, hps: nat, c: Cached, leaves: seq<Hash>)
    requires hps >= 2 && Built(hp, hps, c, leaves)
    ensures ValidCached(hps, Log2(hps), c) && |leaves| == hps && |c.store| > 0 && c.store[|c.store| - 1] == Root(hp, leaves)
  {
    StoreRoot(hp, leaves, c.store);
  }

  /** Saving one subtree leaves every other as it was. */
  lemma SavedElsewhere(cfg: Config, a: State, m: nat, si: nat, c: Cached, root: Hash)
    requires Shaped(cfg, a) && m < cfg.miners && si < cfg.subtrees
    ensures var b := SubtreeSaved(a, m, si, c, root); Shaped(cfg, b) && SameElsewhere(cfg, a, b, m, si)
  {
    var b := SubtreeSaved(a, m, si, c, root);
    hide HashBytes, At;
    forall m', si' | 0 <= m' < cfg.miners && 0 <= si' && (m', si') != (m, si)
      ensures SameAt(cfg, a, b, m', si')
    {
      assert si' < cfg.subtrees ==> b.roots[m'][si'] == a.roots[m'][si'];
    }
  }

  lemma SavedStored(hp: HashFn, cfg: Config, a: State, m: nat, si: nat, c: Cached, root: Hash)
    requires ValidConfig(cfg) && Shaped(cfg, a) && m < cfg.miners && si < cfg.subtrees
    requires Built(hp, cfg.hps, c, c.leaves) && root == Root(hp, c.leaves)
    ensures var b := SubtreeSaved(a, m, si, c, root);
      Shaped(cfg, b) && Stored(hp, cfg, b, m, si, c.leaves) && SameElsewhere(cfg, a, b, m, si)
  {
    HashesRoundTrip(c.leaves);
    HashesRoundTrip(c.store);
    SavedElsewhere(cfg, a, m, si, c, root);
    hide HashBytes, BytesHashes, Root, IsStore, At, SameAt;
  }

  // ---- Indexing a sealed subtree -------------------------------------------------------------------

  /** The state after one miner's batches are added and its fragments saved. */
  ghost predicate Filing(cfg: Config, a: State, b: State, m: nat, si: nat, batches: map<nat, seq<nat>>, fragments: map<nat, Data>)
    requires Shaped(cfg, a) && Shaped(cfg, b) && m < cfg.miners
  {
    && b.roots == a.roots && b.disk == a.disk
    && (forall m' :: 0 <= m' < cfg.miners && m' != m ==> b.index[m'] == a.index[m'])
    && TokensAdded(a.index[m], b.index[m], si, batches, batches.Keys)
    && BatchSaved(a.frags, b.frags, m, si, fragments, fragments.Keys)
  }

  lemma FiledElsewhere(cfg: Config, a: State, b: State, m: nat, si: nat, batches: map<nat, seq<nat>>, fragments: map<nat, Data>)
    requires Shaped(cfg, a) && Shaped(cfg, b) && m < cfg.miners && Filing(cfg, a, b, m, si, batches, fragments)
    ensures SameElsewhere(cfg, a, b, m, si)
    ensures si < cfg.subtrees ==> a.roots[m][si] == b.roots[m][si]
  {
    hide At, TokenName, ScanToken;
    forall m', si' | 0 <= m' < cfg.miners && 0 <= si' && (m', si') != (m, si)
      ensures SameAt(cfg, a, b, m', si')
    {}
  }

  lemma FiledPositions(cfg: Config, a: State, b: State, m: nat, si: nat, batches: map<nat, seq<nat>>, t: string)
    requires Shaped(cfg, a) && Shaped(cfg, b) && m < cfg.miners && Untouched(cfg, a, m, si)
    requires TokensAdded(a.index[m], b.index[m], si, batches, batches.Keys)
    ensures At(b.index[m], t, si) == if t == TokenName(ScanToken(t)) then ListOf(batches, ScanToken(t)) else []
  {
    hide At, TokenName, ScanToken;
    assert At(a.index[m], t, si) == [];
  }

  ghost predicate BatchesInRange(businesses: nat, batches: map<nat, seq<nat>>) {
    forall ti :: ti in batches ==> ti < businesses
  }

  lemma CollectedInRange(businesses: nat, base: seq<Hash>, leaves: seq<Hash>, batches: map<nat, seq<nat>>)
    requires businesses > 0 && Collected(businesses, base, leaves, batches)
    ensures BatchesInRange(businesses, batches)
  {
    hide TokenOf;
    forall ti | ti in batches
      ensures ti < businesses
    {
      assert FiledAmong(businesses, base, leaves, ListOf(batches, ti), ti);
      assert batches[ti][0] in batches[ti];
    }
  }

  lemma FilingIndexed(cfg: Config, a: State, b: State, m: nat, si: nat, base: seq<Hash>, leaves: seq<Hash>, batches: map<nat, seq<nat>>)
    requires ValidConfig(cfg) && Shaped(cfg, a) && Shaped(cfg, b) && m < cfg.miners && Untouched(cfg, a, m, si)
    requires TokensAdded(a.index[m], b.index[m], si, batches, batches.Keys)
    requires Collected(cfg.businesses, base, leaves, batches) && multiset(base) == multiset(leaves) && |leaves| == cfg.hps
    ensures Indexed(cfg, b, m, si, leaves)
  {
    CollectedInRange(cfg.businesses, base, leaves, batches);
    hide At, TokenName, ScanToken, Collected, TokensAdded, Untouched;
    forall ti | 0 <= ti < cfg.businesses
      ensures Filed(cfg.businesses, leaves, PositionsOf(b, m, si, ti), ti)
    {
      NameRoundTrip(ti);
      FiledPositions(cfg, a, b, m, si, batches, TokenName(ti));
      CollectedIsFiled(cfg.businesses, base, leaves, batches, ti);
    }
    forall t | At(b.index[m], t, si) != []
      ensures ScanToken(t) < cfg.businesses && t == TokenName(ScanToken(t))
    {
      FiledPositions(cfg, a, b, m, si, batches, t);
    }
  }

  /** Every list has its fragment, and nothing else does. */
  ghost predicate AllExtracted(hp: HashFn, hps: nat, si: nat, leaves: seq<Hash>, lists: map<nat, seq<nat>>, fragments: map<nat, Data>)
    requires hps >= 2
  {
    && fragments.Keys == lists.Keys
    && (forall ti :: ti in lists ==> FragmentFor(hp, hps, si, leaves, lists[ti], fragments[ti]))
  }

  lemma FilingFragmented(hp: HashFn, cfg: Config, a: State, b: State, m: nat, si: nat, base: seq<Hash>, leaves: seq<Hash>,
                         batches: map<nat, seq<nat>>, fragments: map<nat, Data>)
    requires ValidConfig(cfg) && Shaped(cfg, a) && Shaped(cfg, b) && m < cfg.miners && Untouched(cfg, a, m, si)
    requires Filing(cfg, a, b, m, si, batches, fragments) && Collected(cfg.businesses, base, leaves, batches)
    requires if cfg.fragments then AllExtracted(hp, cfg.hps, si, leaves, batches, fragments) else fragments == map[]
    ensures Fragmented(hp, cfg, b, m, si, leaves)
  {
    hide At, TokenName, ScanToken, FragmentFor, FiledAmong, TokensAdded;
    forall ti | 0 <= ti < cfg.businesses
      ensures if !cfg.fragments || PositionsOf(b, m, si, ti) == [] then (m, ti, si) !in b.frags
              else (m, ti, si) in b.frags && FragmentFor(hp, cfg.hps, si, leaves, PositionsOf(b, m, si, ti), b.frags[(m, ti, si)])
    {
      NameRoundTrip(ti);
      FiledPositions(cfg, a, b, m, si, batches, TokenName(ti));
    }
  }

  // ---- Refreshing the winner's fragments -----------------------------------------------------------

  /** Fragments re-extracted for every token with positions in the subtree. */
  ghost predicate Refreshed(hp: HashFn, cfg: Config, s: State, m: nat, si: nat, leaves: seq<Hash>, fragments: map<nat, Data>)
    requires ValidConfig(cfg) && Shaped(cfg, s) && m < cfg.miners
  {
    && (forall ti :: ti in fragments ==> ti < cfg.businesses)
    && (forall ti :: 0 <= ti < cfg.businesses ==>
          if PositionsOf(s, m, si, ti) == [] then ti !in fragments
          else ti in fragments && FragmentFor(hp, cfg.hps, si, leaves, PositionsOf(s, m, si, ti), fragments[ti]))
  }

  lemma RefreshedFragmented(hp: HashFn, cfg: Config, a: State, b: State, m: nat, si: nat, old_: seq<Hash>, leaves: seq<Hash>,
                            fragments: map<nat, Data>)
    requires ValidConfig(cfg) && Shaped(cfg, a) && Shaped(cfg, b) && m < cfg.miners && cfg.fragments
    requires Fragmented(hp, cfg, a, m, si, old_) && Refreshed(hp, cfg, b, m, si, leaves, fragments)
    requires a.index == b.index && BatchSaved(a.frags, b.frags, m, si, fragments, fragments.Keys)
    ensures Fragmented(hp, cfg, b, m, si, leaves)
  {
    hide At, TokenName, ScanToken, FragmentFor;
    assert forall ti: nat :: PositionsOf(a, m, si, ti) == PositionsOf(b, m, si, ti);
  }

  // ---- Seal and finalize ---------------------------------------------------------------------------

  /** The positions the generators draw, by miner and subtree. */
  type Draws = (nat, nat) -> seq<nat>

  ghost predicate DrawsFit(cfg: Config, draws: Draws) {
    forall m, si :: 0 <= m < cfg.miners && 0 <= si < cfg.subtrees ==> SwapsFit(cfg.hps, draws(m, si))
  }

  ghost predicate ValidTxids(cfg: Config, txids: seq<Hash>) {
    |txids| == cfg.subtrees * cfg.hps && NoRepeats(txids)
  }

  function Slice(cfg: Config, txids: seq<Hash>, si: nat): (r: seq<Hash>)
    requires |txids| == cfg.subtrees * cfg.hps && si < cfg.subtrees
    ensures |r| == cfg.hps
  {
    MulStep(si, cfg.subtrees, cfg.hps);
    txids[si * cfg.hps..si * cfg.hps + cfg.hps]
  }

  /** The order miner m puts the txids of subtree si in. */
  ghost function MinerLeaves(cfg: Config, txids: seq<Hash>, draws: Draws, m: nat, si: nat): (r: seq<Hash>)
    requires |txids| == cfg.subtrees * cfg.hps && si < cfg.subtrees && m < cfg.miners && DrawsFit(cfg, draws)
    ensures |r| == cfg.hps
  {
    Swapped(Slice(cfg, txids, si), draws(m, si))
  }

  lemma PartNoRepeats(s: seq<Hash>, lo: nat, hi: nat)
    requires lo <= hi <= |s| && NoRepeats(s)
    ensures NoRepeats(s[lo..hi])
  {}

  lemma SliceDistinct(cfg: Config, txids: seq<Hash>, draws: Draws, m: nat, si: nat)
    requires ValidTxids(cfg, txids) && DrawsFit(cfg, draws) && m < cfg.miners && si < cfg.subtrees
    ensures NoRepeats(Slice(cfg, txids, si)) && NoRepeats(MinerLeaves(cfg, txids, draws, m, si))
    ensures multiset(MinerLeaves(cfg, txids, draws, m, si)) == multiset(Slice(cfg, txids, si))
  {
    MulStep(si, cfg.subtrees, cfg.hps);
    hide NoRepeats, Swapped;
    PartNoRepeats(txids, si * cfg.hps, si * cfg.hps + cfg.hps);
    SwappedPermutes(Slice(cfg, txids, si), draws(m, si));
    PermutationNoRepeats(Slice(cfg, txids, si), MinerLeaves(cfg, txids, draws, m, si));
  }

  // ---- The block's txids, conserved ----------------------------------------------------------------

  /** Subtrees end to end. */
  ghost function EndToEnd(subs: seq<seq<Hash>>): seq<Hash> {
    if subs == [] then [] else EndToEnd(subs[..|subs| - 1]) + subs[|subs| - 1]
  }

  ghost function Slices(cfg: Config, txids: seq<Hash>, n: nat): (r: seq<seq<Hash>>)
    requires |txids| == cfg.subtrees * cfg.hps && n <= cfg.subtrees
  {
    seq(n, si requires 0 <= si < n => Slice(cfg, txids, si))
  }

  lemma SlicesLast(cfg: Config, txids: seq<Hash>, n: nat)
    requires |txids| == cfg.subtrees * cfg.hps && 0 < n <= cfg.subtrees
    ensures EndToEnd(Slices(cfg, txids, n)) == EndToEnd(Slices(cfg, txids, n - 1)) + Slice(cfg, txids, n - 1)
  {
    assert Slices(cfg, txids, n)[..n - 1] == Slices(cfg, txids, n - 1);
    hide Slice;
  }

  lemma SliceFollows(cfg: Config, txids: seq<Hash>, n: nat)
    requires |txids| == cfg.subtrees * cfg.hps && n < cfg.subtrees
    ensures n * cfg.hps <= (n + 1) * cfg.hps <= |txids|
    ensures txids[..n * cfg.hps] + Slice(cfg, txids, n) == txids[..(n + 1) * cfg.hps]
  {
    NextMultiple(n, cfg.hps);
    MulStep(n, cfg.subtrees, cfg.hps);
  }

  /** The slices of all subtrees, end to end, are the block's txids. */
  lemma {:induction false} SlicesJoin(cfg: Config, txids: seq<Hash>, n: nat)
    requires |txids| == cfg.subtrees * cfg.hps && n <= cfg.subtrees
    ensures n * cfg.hps <= |txids| && EndToEnd(Slices(cfg, txids, n)) == txids[..n * cfg.hps]
    ensures n == cfg.subtrees ==> EndToEnd(Slices(cfg, txids, n)) == txids
  {
    if n > 0 {
      SlicesJoin(cfg, txids, n - 1);
      SlicesLast(cfg, txids, n);
      SliceFollows(cfg, txids, n - 1);
      hide Slice, Slices;
    }
  }

  /** Reordering inside subtrees conserves the whole. */
  lemma {:induction false} EachPermuted(a: seq<seq<Hash>>, b: seq<seq<Hash>>)
    requires |a| == |b| && forall i :: 0 <= i < |a| ==> multiset(a[i]) == multiset(b[i])
    ensures multiset(EndToEnd(a)) == multiset(EndToEnd(b))
  {
    if a != [] {
      EachPermuted(a[..|a| - 1], b[..|b| - 1]);
    }
  }

  lemma SliceAt(cfg: Config, txids: seq<Hash>, si: nat, lo: nat, i: nat)
    requires |txids| == cfg.subtrees * cfg.hps && si < cfg.subtrees && i < cfg.hps && lo == si * cfg.hps
    ensures lo + i < |txids| && Slice(cfg, txids, si)[i] == txids[lo + i]
  {
    MulStep(si, cfg.subtrees, cfg.hps);
  }

  lemma OnlyThere(txids: seq<Hash>, g: nat, k: nat)
    requires NoRepeats(txids) && g < |txids| && k < |txids| && txids[g] == txids[k]
    ensures g == k
  {}

  lemma OffsetSplit(g: nat, p: nat)
    requires p > 0
    ensures g == (g / p) * p + g % p
  {}

  lemma Distinct(cfg: Config, txids: seq<Hash>)
    requires ValidTxids(cfg, txids)
    ensures |txids| == cfg.subtrees * cfg.hps && NoRepeats(txids)
  {}

  lemma SlicesMeet(cfg: Config, txids: seq<Hash>, q: nat, lo: nat, i: nat, si: nat, hi: nat, j: nat)
    requires ValidTxids(cfg, txids) && q < cfg.subtrees && i < cfg.hps && si < cfg.subtrees && j < cfg.hps
    requires lo == q * cfg.hps && hi == si * cfg.hps
    requires Slice(cfg, txids, q)[i] == Slice(cfg, txids, si)[j]
    ensures lo + i == hi + j
  {
    hide *;
    Distinct(cfg, txids);
    SliceAt(cfg, txids, q, lo, i);
    SliceAt(cfg, txids, si, hi, j);
    OnlyThere(txids, lo + i, hi + j);
  }

  lemma SlicesApart(cfg: Config, txids: seq<Hash>, q: nat, i: nat, si: nat, j: nat)
    requires ValidTxids(cfg, txids) && q < cfg.subtrees && i < cfg.hps && si < cfg.subtrees && j < cfg.hps
    requires Slice(cfg, txids, q)[i] == Slice(cfg, txids, si)[j]
    ensures q == si
  {
    hide *;
    SlicesMeet(cfg, txids, q, q * cfg.hps, i, si, si * cfg.hps, j);
    SplitUnique(q, i, si, j, cfg.hps);
  }

  /** Txid i of slice q is in no other slice. */
  lemma SliceHolds(cfg: Config, txids: seq<Hash>, q: nat, i: nat, si: nat)
    requires ValidTxids(cfg, txids) && q < cfg.subtrees && i < cfg.hps && si < cfg.subtrees
    ensures Slice(cfg, txids, q)[i] in Slice(cfg, txids, si) <==> si == q
  {
    Distinct(cfg, txids);
    hide Slice, ValidTxids;
    var mine, slice := Slice(cfg, txids, q), Slice(cfg, txids, si);
    assert mine[i] in mine;
    if j: nat :| j < |slice| && slice[j] == mine[i] {
      SlicesApart(cfg, txids, q, i, si, j);
    }
  }

  /** The subtree of a txid is one of the block's. */
  lemma SubtreeOf(cfg: Config, g: nat)
    requires cfg.hps > 0 && g < cfg.subtrees * cfg.hps
    ensures g / cfg.hps < cfg.subtrees
  {
    OffsetSplit(g, cfg.hps);
    if g / cfg.hps > cfg.subtrees { MulStep(cfg.subtrees, g / cfg.hps, cfg.hps); }
  }

  /** Txid g of the block is among every miner's leaves of subtree g / hps, and of no other subtree. */
  lemma TxidPlaced(cfg: Config, txids: seq<Hash>, draws: Draws, m: nat, g: nat)
    requires ValidTxids(cfg, txids) && DrawsFit(cfg, draws) && m < cfg.miners && g < |txids| && cfg.hps > 0
    ensures g / cfg.hps < cfg.subtrees
    ensures forall si :: 0 <= si < cfg.subtrees ==> (txids[g] in MinerLeaves(cfg, txids, draws, m, si) <==> si == g / cfg.hps)
  {
    SubtreeOf(cfg, g);
    OffsetSplit(g, cfg.hps);
    var q, i := g / cfg.hps, g % cfg.hps;
    SliceAt(cfg, txids, q, q * cfg.hps, i);
    hide MinerLeaves, Slice, NoRepeats, DrawsFit;
    forall si | 0 <= si < cfg.subtrees
      ensures txids[g] in MinerLeaves(cfg, txids, draws, m, si) <==> si == g / cfg.hps
    {
      SliceDistinct(cfg, txids, draws, m, si);
      PermutationMember(Slice(cfg, txids, si), MinerLeaves(cfg, txids, draws, m, si), txids[g]);
      SliceHolds(cfg, txids, q, i, si);
    }
  }

  ghost predicate StoredIn(s: State, m: nat, si: nat, txid: Hash) {
    (m, si) in s.disk && txid in BytesHashes(s.disk[(m, si)].0)
  }

  /** On disk, every miner holds each txid of the block in its own subtree and no other. */
  ghost predicate BlockStored(cfg: Config, s: State, txids: seq<Hash>)
    requires cfg.hps > 0
  {
    forall m, g, si :: 0 <= m < cfg.miners && 0 <= g < |txids| && 0 <= si < cfg.subtrees ==>
      (StoredIn(s, m, si, txids[g]) <==> si == g / cfg.hps)
  }

  lemma StoredLeaves(hp: HashFn, cfg: Config, s: State, m: nat, si: nat, filed: seq<Hash>, leaves: seq<Hash>, txid: Hash)
    requires ValidConfig(cfg) && Shaped(cfg, s) && m < cfg.miners && si < cfg.subtrees
    requires Coherent(hp, cfg, s, m, si, filed, leaves)
    ensures StoredIn(s, m, si, txid) <==> txid in leaves
  {
    hide BytesHashes, Indexed, Fragmented, IsStore, Root;
  }

  lemma SealedConserves(hp: HashFn, cfg: Config, s: State, txids: seq<Hash>, draws: Draws)
    requires ValidConfig(cfg) && Shaped(cfg, s) && ValidTxids(cfg, txids) && DrawsFit(cfg, draws)
    requires forall m, si :: 0 <= m < cfg.miners && 0 <= si < cfg.subtrees ==>
      var leaves := MinerLeaves(cfg, txids, draws, m, si); Coherent(hp, cfg, s, m, si, leaves, leaves)
    ensures BlockStored(cfg, s, txids)
  {
    hide Coherent, MinerLeaves, StoredIn, NoRepeats, DrawsFit, Shaped;
    forall m, g, si | 0 <= m < cfg.miners && 0 <= g < |txids| && 0 <= si < cfg.subtrees
      ensures StoredIn(s, m, si, txids[g]) <==> si == g / cfg.hps
    {
      var leaves := MinerLeaves(cfg, txids, draws, m, si);
      StoredLeaves(hp, cfg, s, m, si, leaves, leaves, txids[g]);
      TxidPlaced(cfg, txids, draws, m, g);
    }
  }

  const ZERO_HASH := Hash(seq(HASH_SIZE, _ => 0))

  lemma TokenAdded(before: Entries, mid: Entries, after: Entries, si: nat, batches: map<nat, seq<nat>>, done: set<nat>, ti: nat)
    requires TokensAdded(before, mid, si, batches, done) && ti in batches && ti !in done
    requires AppendedAt(mid, after, TokenName(ti), si, batches[ti])
    ensures TokensAdded(before, after, si, batches, done + {ti})
  {
    NameRoundTrip(ti);
    hide At, TokenName, ScanToken;
    forall t, s
      ensures At(after, t, s) ==
        if s == si && Names(t, done + {ti}) then At(before, t, s) + ListOf(batches, ScanToken(t)) else At(before, t, s)
    {
      assert At(mid, t, s) == if s == si && Names(t, done) then At(before, t, s) + ListOf(batches, ScanToken(t)) else At(before, t, s);
      if t == TokenName(ti) {
        assert ScanToken(t) == ti && !Names(t, done);
      }
    }
  }

  ghost predicate SomeExtracted(hp: HashFn, hps: nat, si: nat, leaves: seq<Hash>, lists: map<nat, seq<nat>>,
                                fragments: map<nat, Data>, done: seq<nat>)
    requires hps >= 2
  {
    && (forall ti :: ti in fragments <==> ti in done)
    && (forall ti :: ti in fragments ==> ti in lists && FragmentFor(hp, hps, si, leaves, lists[ti], fragments[ti]))
  }

  lemma NoneExtracted(hp: HashFn, hps: nat, si: nat, leaves: seq<Hash>, lists: map<nat, seq<nat>>)
    requires hps >= 2
    ensures SomeExtracted(hp, hps, si, leaves, lists, map[], [])
  {}

  lemma OneMore(hp: HashFn, hps: nat, si: nat, leaves: seq<Hash>, lists: map<nat, seq<nat>>, fragments: map<nat, Data>,
                done: seq<nat>, ti: nat, data: Data)
    requires hps >= 2 && ti in lists && SomeExtracted(hp, hps, si, leaves, lists, fragments, done)
    requires FragmentFor(hp, hps, si, leaves, lists[ti], data)
    ensures SomeExtracted(hp, hps, si, leaves, lists, fragments[ti := data], done + [ti])
  {
    hide FragmentFor;
    assert forall x :: x in done + [ti] <==> x in done || x == ti;
  }

  lemma MadeFragment(hp: HashFn, hps: nat, si: nat, c: Cached, list: seq<nat>, order: seq<nat>, levels: seq<Level>, data: Data)
    requires hps >= 2 && Built(hp, hps, c, c.leaves)
    requires multiset(order) == multiset(list) && Ascending(order) && InSubtree(hps, order)
    requires ValidCached(hps, Log2(hps), c) && Extracted(hps, Log2(hps), si, c, order, levels) && data == FragmentBytes(levels)
    ensures FragmentFor(hp, hps, si, c.leaves, list, data)
  {
    hide Extracted, FragmentBytes, Ascending, InSubtree;
    assert c == Cached(c.leaves, c.store);
  }

  lemma OneExtracted(hp: HashFn, hps: nat, si: nat, c: Cached, lists: map<nat, seq<nat>>, fragments: map<nat, Data>,
                     done: seq<nat>, ti: nat, order: seq<nat>, levels: seq<Level>, data: Data)
    requires hps >= 2 && Built(hp, hps, c, c.leaves) && ti in lists
    requires SomeExtracted(hp, hps, si, c.leaves, lists, fragments, done)
    requires multiset(order) == multiset(lists[ti]) && Ascending(order) && InSubtree(hps, order)
    requires ValidCached(hps, Log2(hps), c) && Extracted(hps, Log2(hps), si, c, order, levels) && data == FragmentBytes(levels)
    ensures SomeExtracted(hp, hps, si, c.leaves, lists, fragments[ti := data], done + [ti])
  {
    hide *;
    MadeFragment(hp, hps, si, c, lists[ti], order, levels, data);
    OneMore(hp, hps, si, c.leaves, lists, fragments, done, ti, data);
  }

  lemma EachExtracted(hp: HashFn, hps: nat, si: nat, leaves: seq<Hash>, lists: map<nat, seq<nat>>, fragments: map<nat, Data>, keys: seq<nat>)
    requires hps >= 2 && SomeExtracted(hp, hps, si, leaves, lists, fragments, keys[..|keys|])
    requires forall ti :: ti in keys <==> ti in lists
    ensures AllExtracted(hp, hps, si, leaves, lists, fragments)
  {
    hide FragmentFor;
    assert keys[..|keys|] == keys;
  }

  /** A fragment for each token, in any order, with one worker. */
  method ExtractBatch(hp: HashFn, cfg: Config, si: nat, c: Cached, lists: map<nat, seq<nat>>) returns (fragments: map<nat, Data>)
    requires cfg.hps >= 2 && Built(hp, cfg.hps, c, c.leaves)
    requires forall ti :: ti in lists ==> InSubtree(cfg.hps, lists[ti])
    ensures AllExtracted(hp, cfg.hps, si, c.leaves, lists, fragments)
  {
    hide *;
    var keys := Keys(lists);
    var ws := new WorkerState(Log2(cfg.hps));
    fragments := map[];
    BuiltFacts(hp, cfg.hps, c, c.leaves);
    ghost var done: seq<nat> := [];
    NoneExtracted(hp, cfg.hps, si, c.leaves, lists);
    for i := 0 to |keys|
      invariant fresh(ws) && fresh(ws.bitset)
      invariant SomeExtracted(hp, cfg.hps, si, c.leaves, lists, fragments, keys[..i])
    {
      var ti := keys[i];
      var levels, order := ExtractSubtreeFragment(c.leaves, c.store, lists[ti], si, cfg.hps, Log2(cfg.hps), ws);
      var data := MarshalFragment(levels);
      OneExtracted(hp, cfg.hps, si, c, lists, fragments, keys[..i], ti, order, levels, data);
      assert keys[..i + 1] == keys[..i] + [ti];
      fragments := fragments[ti := data];
    }
    EachExtracted(hp, cfg.hps, si, c.leaves, lists, fragments, keys);
  }

  // ---- All miners of one subtree -------------------------------------------------------------------

  ghost predicate AllBuilt(hp: HashFn, hps: nat, subs: seq<Cached>) {
    hps >= 2 && forall m :: 0 <= m < |subs| ==> Built(hp, hps, subs[m], subs[m].leaves)
  }

  ghost predicate AllStored(hp: HashFn, cfg: Config, s: State, si: nat, subs: seq<Cached>, upto: nat)
    requires ValidConfig(cfg) && Shaped(cfg, s) && si < cfg.subtrees && |subs| == cfg.miners && upto <= cfg.miners
  {
    forall m :: 0 <= m < upto ==> Stored(hp, cfg, s, m, si, subs[m].leaves)
  }

  method SubtreeRoot(ghost hp: HashFn, ghost hps: nat, subs: seq<Cached>, m: nat) returns (root: Hash)
    requires AllBuilt(hp, hps, subs) && m < |subs|
    ensures |subs[m].leaves| > 0 && root == Root(hp, subs[m].leaves)
  {
    BuiltFacts(hp, hps, subs[m], subs[m].leaves);
    root := subs[m].store[|subs[m].store| - 1];
  }

  lemma NoneStored(hp: HashFn, cfg: Config, s: State, si: nat, subs: seq<Cached>)
    requires ValidConfig(cfg) && Shaped(cfg, s) && si < cfg.subtrees && |subs| == cfg.miners
    ensures AllStored(hp, cfg, s, si, subs, 0) && SameOther(cfg, s, s, si)
  {}

  lemma OneStored(hp: HashFn, cfg: Config, start: State, a: State, si: nat, subs: seq<Cached>, m: nat, root: Hash)
    requires ValidConfig(cfg) && Shaped(cfg, start) && Shaped(cfg, a) && si < cfg.subtrees && |subs| == cfg.miners && m < cfg.miners
    requires AllBuilt(hp, cfg.hps, subs) && |subs[m].leaves| > 0 && root == Root(hp, subs[m].leaves)
    requires AllStored(hp, cfg, a, si, subs, m) && SameOther(cfg, start, a, si)
    ensures var b := SubtreeSaved(a, m, si, subs[m], root);
      && Shaped(cfg, b) && AllStored(hp, cfg, b, si, subs, m + 1) && SameOther(cfg, start, b, si)
      && b.index == a.index && b.frags == a.frags
  {
    var b := SubtreeSaved(a, m, si, subs[m], root);
    assert Built(hp, cfg.hps, subs[m], subs[m].leaves);
    SavedStored(hp, cfg, a, m, si, subs[m], root);
    SameOtherStep(cfg, start, a, b, m, si);
    hide Stored, SameAt, SubtreeSaved, Shaped;
    forall m' | 0 <= m' < m + 1
      ensures Stored(hp, cfg, b, m', si, subs[m'].leaves)
    {
      if m' < m {
        assert SameAt(cfg, a, b, m', si);
        StoredFrame(hp, cfg, a, b, m', si, subs[m'].leaves);
      }
    }
  }

  lemma CollectedInSubtree(hp: HashFn, businesses: nat, hps: nat, base: seq<Hash>, c: Cached, batches: map<nat, seq<nat>>)
    requires businesses > 0 && hps >= 2 && Built(hp, hps, c, c.leaves) && Collected(businesses, base, c.leaves, batches)
    ensures forall ti :: ti in batches ==> InSubtree(hps, batches[ti])
  {
    hide TokenOf, IsStore;
    forall ti | ti in batches
      ensures InSubtree(hps, batches[ti])
    {
      assert FiledAmong(businesses, base, c.leaves, ListOf(batches, ti), ti);
      assert forall i :: 0 <= i < |batches[ti]| ==> batches[ti][i] in batches[ti];
    }
  }

  lemma NothingSaved(frags: FragmentMap, m: nat, si: nat)
    ensures var none: map<nat, Data> := map[]; BatchSaved(frags, frags, m, si, none, none.Keys)
  {}

  /** Each miner's leaves are the canonical txids in some order, all different. */
  ghost predicate AllOrders(base: seq<Hash>, subs: seq<Cached>) {
    && NoRepeats(base)
    && (forall m :: 0 <= m < |subs| ==> NoRepeats(subs[m].leaves) && multiset(subs[m].leaves) == multiset(base))
  }

  ghost predicate AllCoherent(hp: HashFn, cfg: Config, s: State, si: nat, subs: seq<Cached>, upto: nat)
    requires ValidConfig(cfg) && Shaped(cfg, s) && si < cfg.subtrees && |subs| == cfg.miners && upto <= cfg.miners
  {
    forall m :: 0 <= m < upto ==> Coherent(hp, cfg, s, m, si, subs[m].leaves, subs[m].leaves)
  }

  ghost predicate RestStored(hp: HashFn, cfg: Config, s: State, si: nat, subs: seq<Cached>, from: nat)
    requires ValidConfig(cfg) && Shaped(cfg, s) && si < cfg.subtrees && |subs| == cfg.miners
  {
    forall m :: from <= m < cfg.miners ==> Stored(hp, cfg, s, m, si, subs[m].leaves) && Untouched(cfg, s, m, si)
  }

  lemma NoneIndexed(hp: HashFn, cfg: Config, s: State, si: nat, subs: seq<Cached>)
    requires ValidConfig(cfg) && Shaped(cfg, s) && si < cfg.subtrees && |subs| == cfg.miners
    requires AllStored(hp, cfg, s, si, subs, cfg.miners) && forall m :: 0 <= m < cfg.miners ==> Untouched(cfg, s, m, si)
    ensures AllCoherent(hp, cfg, s, si, subs, 0) && RestStored(hp, cfg, s, si, subs, 0) && SameOther(cfg, s, s, si)
  {
    hide Stored, Untouched;
  }

  lemma NextMiner(hp: HashFn, cfg: Config, s: State, si: nat, base: seq<Hash>, subs: seq<Cached>, m: nat)
    requires ValidConfig(cfg) && Shaped(cfg, s) && si < cfg.subtrees && |subs| == cfg.miners && m < cfg.miners
    requires AllBuilt(hp, cfg.hps, subs) && AllOrders(base, subs) && RestStored(hp, cfg, s, si, subs, m)
    ensures cfg.hps >= 2 && Built(hp, cfg.hps, subs[m], subs[m].leaves) && Untouched(cfg, s, m, si)
    ensures NoRepeats(base) && NoRepeats(subs[m].leaves) && multiset(base) == multiset(subs[m].leaves)
  {
    hide Stored, Untouched, NoRepeats, Built;
  }

  lemma StoredKept(hp: HashFn, cfg: Config, a: State, b: State, m: nat, si: nat, leaves: seq<Hash>)
    requires ValidConfig(cfg) && Shaped(cfg, a) && Shaped(cfg, b) && m < cfg.miners && si < cfg.subtrees
    requires b.roots == a.roots && b.disk == a.disk
    ensures Stored(hp, cfg, a, m, si, leaves) ==> Stored(hp, cfg, b, m, si, leaves)
  {}

  lemma EarlierCoherent(hp: HashFn, cfg: Config, a: State, b: State, si: nat, subs: seq<Cached>, m: nat)
    requires ValidConfig(cfg) && Shaped(cfg, a) && Shaped(cfg, b)
    requires si < cfg.subtrees && |subs| == cfg.miners && m < cfg.miners
    requires AllCoherent(hp, cfg, a, si, subs, m) && SameElsewhere(cfg, a, b, m, si)
    requires Stored(hp, cfg, b, m, si, subs[m].leaves)
    requires Indexed(cfg, b, m, si, subs[m].leaves) && Fragmented(hp, cfg, b, m, si, subs[m].leaves)
    ensures AllCoherent(hp, cfg, b, si, subs, m + 1)
  {
    hide Stored, Indexed, Fragmented, SameAt, Shaped;
    forall m' | 0 <= m' < m + 1
      ensures Coherent(hp, cfg, b, m', si, subs[m'].leaves, subs[m'].leaves)
    {
      if m' < m {
        assert SameAt(cfg, a, b, m', si);
        CoherentFrame(hp, cfg, a, b, m', si, subs[m'].leaves, subs[m'].leaves);
      }
    }
  }

  lemma LaterStored(hp: HashFn, cfg: Config, a: State, b: State, si: nat, subs: seq<Cached>, m: nat)
    requires ValidConfig(cfg) && Shaped(cfg, a) && Shaped(cfg, b)
    requires si < cfg.subtrees && |subs| == cfg.miners && m < cfg.miners
    requires RestStored(hp, cfg, a, si, subs, m) && SameElsewhere(cfg, a, b, m, si)
    ensures RestStored(hp, cfg, b, si, subs, m + 1)
  {
    hide Stored, Untouched, SameAt, Shaped;
    forall m' | m + 1 <= m' < cfg.miners
      ensures Stored(hp, cfg, b, m', si, subs[m'].leaves) && Untouched(cfg, b, m', si)
    {
      assert SameAt(cfg, a, b, m', si);
      StoredFrame(hp, cfg, a, b, m', si, subs[m'].leaves);
      UntouchedFrame(cfg, a, b, m', si);
    }
  }

  lemma OneIndexed(hp: HashFn, cfg: Config, start: State, a: State, b: State, si: nat, subs: seq<Cached>, m: nat)
    requires ValidConfig(cfg) && Shaped(cfg, start) && Shaped(cfg, a) && Shaped(cfg, b)
    requires si < cfg.subtrees && |subs| == cfg.miners && m < cfg.miners
    requires AllCoherent(hp, cfg, a, si, subs, m) && RestStored(hp, cfg, a, si, subs, m) && SameOther(cfg, start, a, si)
    requires Indexed(cfg, b, m, si, subs[m].leaves) && Fragmented(hp, cfg, b, m, si, subs[m].leaves)
    requires SameElsewhere(cfg, a, b, m, si) && b.roots == a.roots && b.disk == a.disk
    ensures AllCoherent(hp, cfg, b, si, subs, m + 1) && RestStored(hp, cfg, b, si, subs, m + 1) && SameOther(cfg, start, b, si)
  {
    SameOtherStep(cfg, start, a, b, m, si);
    StoredKept(hp, cfg, a, b, m, si, subs[m].leaves);
    hide *;
    hide Shaped;
    EarlierCoherent(hp, cfg, a, b, si, subs, m);
    LaterStored(hp, cfg, a, b, si, subs, m);
  }

  // ---- Sealing the block ---------------------------------------------------------------------------

  /** The build phase: each miner's order of the txids, and its store. */
  method BuildAll(hp: HashFn, cfg: Config, base: seq<Hash>, si: nat, draws: Draws, numCPU: nat) returns (subs: seq<Cached>)
    requires ValidConfig(cfg) && |base| == cfg.hps && si < cfg.subtrees && DrawsFit(cfg, draws)
    ensures |subs| == cfg.miners
    ensures forall m :: 0 <= m < cfg.miners ==> Built(hp, cfg.hps, subs[m], Swapped(base, draws(m, si)))
  {
    hide IsStore, Root;
    subs := [];
    for m := 0 to cfg.miners
      invariant |subs| == m
      invariant forall i :: 0 <= i < m ==> Built(hp, cfg.hps, subs[i], Swapped(base, draws(i, si)))
    {
      var leaves := JitterTxids(base, draws(m, si));
      var store := BuildMerkleStore(hp, leaves, numCPU);
      subs := subs + [Cached(leaves, store)];
    }
  }

  lemma SealFacts(cfg: Config, txids: seq<Hash>, draws: Draws, si: nat)
    requires ValidConfig(cfg) && ValidTxids(cfg, txids) && DrawsFit(cfg, draws) && si < cfg.subtrees
    ensures |txids| == cfg.subtrees * cfg.hps
    ensures forall m :: 0 <= m < cfg.miners ==> SwapsFit(cfg.hps, draws(m, si))
  {}

  lemma SliceAlone(cfg: Config, txids: seq<Hash>, si: nat)
    requires ValidTxids(cfg, txids) && si < cfg.subtrees
    ensures NoRepeats(Slice(cfg, txids, si))
  {
    MulStep(si, cfg.subtrees, cfg.hps);
    PartNoRepeats(txids, si * cfg.hps, si * cfg.hps + cfg.hps);
  }

  lemma BuiltOrders(hp: HashFn, cfg: Config, txids: seq<Hash>, draws: Draws, si: nat, subs: seq<Cached>)
    requires ValidConfig(cfg) && ValidTxids(cfg, txids) && DrawsFit(cfg, draws) && si < cfg.subtrees && |subs| == cfg.miners
    requires forall m :: 0 <= m < cfg.miners ==> Built(hp, cfg.hps, subs[m], Swapped(Slice(cfg, txids, si), draws(m, si)))
    ensures AllBuilt(hp, cfg.hps, subs) && AllOrders(Slice(cfg, txids, si), subs)
    ensures forall m :: 0 <= m < cfg.miners ==> subs[m].leaves == MinerLeaves(cfg, txids, draws, m, si)
  {
    hide Swapped, IsStore, NoRepeats, Slice;
    forall m | 0 <= m < cfg.miners
      ensures Built(hp, cfg.hps, subs[m], subs[m].leaves) && subs[m].leaves == MinerLeaves(cfg, txids, draws, m, si)
      ensures NoRepeats(subs[m].leaves) && multiset(subs[m].leaves) == multiset(Slice(cfg, txids, si))
    {
      assert Built(hp, cfg.hps, subs[m], Swapped(Slice(cfg, txids, si), draws(m, si)));
      SliceDistinct(cfg, txids, draws, m, si);
    }
    SliceAlone(cfg, txids, si);
  }

  lemma StillUntouched(cfg: Config, a: State, b: State, si: nat)
    requires Shaped(cfg, a) && Shaped(cfg, b) && a.index == b.index && a.frags == b.frags
    requires forall m :: 0 <= m < cfg.miners ==> Untouched(cfg, a, m, si)
    ensures forall m :: 0 <= m < cfg.miners ==> Untouched(cfg, b, m, si)
  {
    hide At;
    forall m | 0 <= m < cfg.miners
      ensures Untouched(cfg, b, m, si)
    {
      assert Untouched(cfg, a, m, si);
    }
  }

  /** Every miner's subtree si is sealed and agrees with itself. */
  ghost predicate SubtreeSealed(hp: HashFn, cfg: Config, s: State, txids: seq<Hash>, draws: Draws, si: nat)
    requires ValidConfig(cfg) && Shaped(cfg, s) && ValidTxids(cfg, txids) && DrawsFit(cfg, draws) && si < cfg.subtrees
  {
    forall m :: 0 <= m < cfg.miners ==>
      var leaves := MinerLeaves(cfg, txids, draws, m, si);
      Coherent(hp, cfg, s, m, si, leaves, leaves)
  }

  lemma SubtreeDone(hp: HashFn, cfg: Config, start: State, mid: State, end: State, txids: seq<Hash>, draws: Draws, si: nat, subs: seq<Cached>)
    requires ValidConfig(cfg) && Shaped(cfg, start) && Shaped(cfg, mid) && Shaped(cfg, end)
    requires ValidTxids(cfg, txids) && DrawsFit(cfg, draws) && si < cfg.subtrees && |subs| == cfg.miners
    requires forall m :: 0 <= m < cfg.miners ==> subs[m].leaves == MinerLeaves(cfg, txids, draws, m, si)
    requires AllCoherent(hp, cfg, end, si, subs, cfg.miners)
    requires SameOther(cfg, start, mid, si) && SameOther(cfg, mid, end, si)
    ensures SubtreeSealed(hp, cfg, end, txids, draws, si) && SameOther(cfg, start, end, si)
  {
    hide Coherent, SameAt, MinerLeaves, Shaped;
    forall m', si' | 0 <= m' < cfg.miners && 0 <= si' && si' != si
      ensures SameAt(cfg, start, end, m', si')
    {
      SameTwice(cfg, start, mid, end, m', si');
    }
  }

  /** Subtrees before `upto` are sealed, the others untouched. */
  ghost predicate SealedUpTo(hp: HashFn, cfg: Config, s: State, txids: seq<Hash>, draws: Draws, upto: nat)
    requires ValidConfig(cfg) && Shaped(cfg, s) && ValidTxids(cfg, txids) && DrawsFit(cfg, draws) && upto <= cfg.subtrees
  {
    && (forall si :: 0 <= si < upto ==> SubtreeSealed(hp, cfg, s, txids, draws, si))
    && (forall m, si :: 0 <= m < cfg.miners && upto <= si ==> Untouched(cfg, s, m, si))
  }

  lemma NoneSealed(hp: HashFn, cfg: Config, s: State, txids: seq<Hash>, draws: Draws)
    requires ValidConfig(cfg) && Shaped(cfg, s) && ValidTxids(cfg, txids) && DrawsFit(cfg, draws)
    requires forall m, si :: 0 <= m < cfg.miners && 0 <= si ==> Untouched(cfg, s, m, si)
    ensures SealedUpTo(hp, cfg, s, txids, draws, 0)
  {}

  lemma SealingNext(hp: HashFn, cfg: Config, s: State, txids: seq<Hash>, draws: Draws, si: nat)
    requires ValidConfig(cfg) && Shaped(cfg, s) && ValidTxids(cfg, txids) && DrawsFit(cfg, draws) && si < cfg.subtrees
    requires SealedUpTo(hp, cfg, s, txids, draws, si)
    ensures forall m :: 0 <= m < cfg.miners ==> Untouched(cfg, s, m, si)
  {}

  lemma SealedFrame(hp: HashFn, cfg: Config, a: State, b: State, txids: seq<Hash>, draws: Draws, si: nat)
    requires ValidConfig(cfg) && Shaped(cfg, a) && Shaped(cfg, b)
    requires ValidTxids(cfg, txids) && DrawsFit(cfg, draws) && si < cfg.subtrees
    requires SubtreeSealed(hp, cfg, a, txids, draws, si)
    requires forall m :: 0 <= m < cfg.miners ==> SameAt(cfg, a, b, m, si)
    ensures SubtreeSealed(hp, cfg, b, txids, draws, si)
  {
    hide Coherent, SameAt, MinerLeaves, Shaped, NoRepeats, DrawsFit;
    forall m | 0 <= m < cfg.miners
      ensures var leaves := MinerLeaves(cfg, txids, draws, m, si); Coherent(hp, cfg, b, m, si, leaves, leaves)
    {
      var leaves := MinerLeaves(cfg, txids, draws, m, si);
      assert SameAt(cfg, a, b, m, si);
      CoherentFrame(hp, cfg, a, b, m, si, leaves, leaves);
    }
  }

  lemma SealingStep(hp: HashFn, cfg: Config, a: State, b: State, txids: seq<Hash>, draws: Draws, si: nat)
    requires ValidConfig(cfg) && Shaped(cfg, a) && Shaped(cfg, b)
    requires ValidTxids(cfg, txids) && DrawsFit(cfg, draws) && si < cfg.subtrees
    requires SealedUpTo(hp, cfg, a, txids, draws, si) && SubtreeSealed(hp, cfg, b, txids, draws, si) && SameOther(cfg, a, b, si)
    ensures SealedUpTo(hp, cfg, b, txids, draws, si + 1)
  {
    hide SubtreeSealed, SameAt, Untouched, Shaped, ValidTxids, DrawsFit;
    forall si' | 0 <= si' < si
      ensures SubtreeSealed(hp, cfg, b, txids, draws, si')
    {
      SealedFrame(hp, cfg, a, b, txids, draws, si');
    }
    forall m, si' | 0 <= m < cfg.miners && si + 1 <= si'
      ensures Untouched(cfg, b, m, si')
    {
      assert SameAt(cfg, a, b, m, si');
      UntouchedFrame(cfg, a, b, m, si');
    }
  }

  lemma AllSealed(hp: HashFn, cfg: Config, s: State, txids: seq<Hash>, draws: Draws)
    requires ValidConfig(cfg) && Shaped(cfg, s) && ValidTxids(cfg, txids) && DrawsFit(cfg, draws)
    requires SealedUpTo(hp, cfg, s, txids, draws, cfg.subtrees)
    ensures forall m, si :: 0 <= m < cfg.miners && 0 <= si < cfg.subtrees ==>
      var leaves := MinerLeaves(cfg, txids, draws, m, si);
      Coherent(hp, cfg, s, m, si, leaves, leaves)
    ensures forall m, si :: 0 <= m < cfg.miners && cfg.subtrees <= si ==> Untouched(cfg, s, m, si)
  {
    hide Coherent, MinerLeaves, Shaped, NoRepeats, DrawsFit;
    forall m, si | 0 <= m < cfg.miners && 0 <= si < cfg.subtrees
      ensures var leaves := MinerLeaves(cfg, txids, draws, m, si); Coherent(hp, cfg, s, m, si, leaves, leaves)
    {
      assert SubtreeSealed(hp, cfg, s, txids, draws, si);
    }
  }

  // ---- Finalizing ----------------------------------------------------------------------------------

  /** Positions filed for a subtree are in range, under names of tokens. */
  ghost predicate WellFiled(cfg: Config, s: State, m: nat, si: nat)
    requires ValidConfig(cfg) && Shaped(cfg, s) && m < cfg.miners
  {
    && (forall t :: At(s.index[m], t, si) != [] ==> ScanToken(t) < cfg.businesses && t == TokenName(ScanToken(t)))
    && (forall t :: InSubtree(cfg.hps, At(s.index[m], t, si)))
  }

  lemma IndexedWellFiled(cfg: Config, s: State, m: nat, si: nat, filed: seq<Hash>)
    requires ValidConfig(cfg) && Shaped(cfg, s) && m < cfg.miners && Indexed(cfg, s, m, si, filed)
    ensures WellFiled(cfg, s, m, si)
  {
    hide TokenName, ScanToken, At, TokenOf;
    forall t
      ensures InSubtree(cfg.hps, At(s.index[m], t, si))
    {
      var list := At(s.index[m], t, si);
      if list != [] {
        var ti := ScanToken(t);
        assert Filed(cfg.businesses, filed, PositionsOf(s, m, si, ti), ti);
        assert forall i :: 0 <= i < |list| ==> list[i] in list;
      }
    }
  }

  lemma IndexFacts(cfg: Config, s: State, m: nat)
    requires Shaped(cfg, s) && m < cfg.miners
    ensures m < |s.index| && NoEmptyLists(s.index[m])
  {}

  lemma TokenFacts(cfg: Config, s: State, m: nat, si: nat, t: string)
    requires ValidConfig(cfg) && Shaped(cfg, s) && m < cfg.miners && WellFiled(cfg, s, m, si)
    requires At(s.index[m], t, si) != []
    ensures t == TokenName(ScanToken(t)) && InSubtree(cfg.hps, At(s.index[m], t, si))
  {
    hide TokenName, ScanToken, At, InSubtree;
  }

  /** The fragments made so far, for the tokens in done. */
  ghost predicate SomeRefreshed(hp: HashFn, hps: nat, si: nat, leaves: seq<Hash>, entries: Entries,
                                fragments: map<nat, Data>, done: seq<string>)
    requires hps >= 2
  {
    forall ti :: if TokenName(ti) in done && At(entries, TokenName(ti), si) != []
      then ti in fragments && FragmentFor(hp, hps, si, leaves, At(entries, TokenName(ti), si), fragments[ti])
      else ti !in fragments
  }

  lemma NoneRefreshed(hp: HashFn, hps: nat, si: nat, leaves: seq<Hash>, entries: Entries)
    requires hps >= 2
    ensures SomeRefreshed(hp, hps, si, leaves, entries, map[], [])
  {}

  lemma SkipRefresh(hp: HashFn, hps: nat, si: nat, leaves: seq<Hash>, entries: Entries,
                    fragments: map<nat, Data>, done: seq<string>, t: string)
    requires hps >= 2 && SomeRefreshed(hp, hps, si, leaves, entries, fragments, done) && At(entries, t, si) == []
    ensures SomeRefreshed(hp, hps, si, leaves, entries, fragments, done + [t])
  {
    hide TokenName, At, FragmentFor;
    assert forall x :: x in done + [t] <==> x in done || x == t;
  }

  lemma ScanDone(hp: HashFn, hps: nat, si: nat, leaves: seq<Hash>, entries: Entries, fragments: map<nat, Data>,
                 done: seq<string>, t: string, data: Data)
    requires hps >= 2 && t == TokenName(ScanToken(t)) && At(entries, t, si) != []
    requires forall ti: nat :: ScanToken(TokenName(ti)) == ti
    requires SomeRefreshed(hp, hps, si, leaves, entries, fragments, done)
    requires FragmentFor(hp, hps, si, leaves, At(entries, t, si), data)
    ensures SomeRefreshed(hp, hps, si, leaves, entries, fragments[ScanToken(t) := data], done + [t])
  {
    hide TokenName, ScanToken, At, FragmentFor;
    assert forall x :: x in done + [t] <==> x in done || x == t;
  }

  lemma OneRefreshed(hp: HashFn, hps: nat, si: nat, c: Cached, entries: Entries, fragments: map<nat, Data>,
                     done: seq<string>, t: string, order: seq<nat>, levels: seq<Level>, data: Data)
    requires hps >= 2 && Built(hp, hps, c, c.leaves) && t == TokenName(ScanToken(t)) && At(entries, t, si) != []
    requires SomeRefreshed(hp, hps, si, c.leaves, entries, fragments, done)
    requires multiset(order) == multiset(At(entries, t, si)) && Ascending(order) && InSubtree(hps, order)
    requires ValidCached(hps, Log2(hps), c) && Extracted(hps, Log2(hps), si, c, order, levels) && data == FragmentBytes(levels)
    ensures SomeRefreshed(hp, hps, si, c.leaves, entries, fragments[ScanToken(t) := data], done + [t])
  {
    NamesRoundTrip();
    hide *;
    MadeFragment(hp, hps, si, c, At(entries, t, si), order, levels, data);
    ScanDone(hp, hps, si, c.leaves, entries, fragments, done, t, data);
  }

  lemma OneOfRefreshed(hp: HashFn, cfg: Config, s: State, m: nat, si: nat, leaves: seq<Hash>, fragments: map<nat, Data>,
                       tokens: seq<string>, ti: nat)
    requires ValidConfig(cfg) && Shaped(cfg, s) && m < cfg.miners && WellFiled(cfg, s, m, si)
    requires SomeRefreshed(hp, cfg.hps, si, leaves, s.index[m], fragments, tokens)
    requires PositionsOf(s, m, si, ti) != [] ==> TokenName(ti) in tokens
    ensures ti in fragments <==> PositionsOf(s, m, si, ti) != []
    ensures ti in fragments ==> ti < cfg.businesses && FragmentFor(hp, cfg.hps, si, leaves, PositionsOf(s, m, si, ti), fragments[ti])
  {
    NameRoundTrip(ti);
    hide TokenName, ScanToken, At, FragmentFor, InSubtree, NoEmptyLists;
  }

  lemma EachRefreshed(hp: HashFn, cfg: Config, s: State, m: nat, si: nat, leaves: seq<Hash>, fragments: map<nat, Data>, tokens: seq<string>)
    requires ValidConfig(cfg) && Shaped(cfg, s) && m < cfg.miners && WellFiled(cfg, s, m, si)
    requires SomeRefreshed(hp, cfg.hps, si, leaves, s.index[m], fragments, tokens)
    requires forall t :: t in tokens <==> exists si' :: At(s.index[m], t, si') != []
    ensures Refreshed(hp, cfg, s, m, si, leaves, fragments)
  {
    hide TokenName, ScanToken, At, FragmentFor, InSubtree, NoEmptyLists, SomeRefreshed, WellFiled;
    forall ti: nat
      ensures ti in fragments <==> PositionsOf(s, m, si, ti) != []
      ensures ti in fragments ==> ti < cfg.businesses && FragmentFor(hp, cfg.hps, si, leaves, PositionsOf(s, m, si, ti), fragments[ti])
    {
      OneOfRefreshed(hp, cfg, s, m, si, leaves, fragments, tokens, ti);
    }
  }

  lemma SameNothing(cfg: Config, s: State, m: nat)
    requires Shaped(cfg, s)
    ensures SameElsewhere(cfg, s, s, m, 0)
  {}

  lemma LoadedFacts(hp: HashFn, cfg: Config, s: State, m: nat, filed: seq<Hash>, leaves: seq<Hash>)
    requires ValidConfig(cfg) && Shaped(cfg, s) && m < cfg.miners && 0 < cfg.subtrees
    requires Coherent(hp, cfg, s, m, 0, filed, leaves)
    ensures (m, 0) in s.disk && BytesHashes(s.disk[(m, 0)].0) == leaves && |leaves| == cfg.hps >= 2
    ensures Indexed(cfg, s, m, 0, filed) && Fragmented(hp, cfg, s, m, 0, leaves)
  {}

  lemma SavedKeeps(a: State, m: nat, si: nat, c: Cached, root: Hash)
    requires m < |a.roots| && si < |a.roots[m]|
    ensures SubtreeSaved(a, m, si, c, root).index == a.index && SubtreeSaved(a, m, si, c, root).frags == a.frags
  {}

  lemma FiledKept(cfg: Config, a: State, b: State, m: nat)
    requires ValidConfig(cfg) && Shaped(cfg, a) && Shaped(cfg, b) && m < cfg.miners
    requires a.index == b.index && WellFiled(cfg, a, m, 0)
    ensures WellFiled(cfg, b, m, 0)
  {}

  lemma IndexedFrame(cfg: Config, a: State, b: State, m: nat, si: nat, filed: seq<Hash>)
    requires ValidConfig(cfg) && Shaped(cfg, a) && Shaped(cfg, b) && m < cfg.miners
    requires a.index == b.index && Indexed(cfg, a, m, si, filed)
    ensures Indexed(cfg, b, m, si, filed)
  {
    hide At, TokenName, ScanToken, TokenOf, Filed, NoEmptyLists;
    forall ti | 0 <= ti < cfg.businesses
      ensures Filed(cfg.businesses, filed, PositionsOf(b, m, si, ti), ti)
    {
      assert PositionsOf(b, m, si, ti) == PositionsOf(a, m, si, ti);
    }
  }

  lemma CoherentBy(hp: HashFn, cfg: Config, s: State, m: nat, si: nat, filed: seq<Hash>, leaves: seq<Hash>)
    requires ValidConfig(cfg) && Shaped(cfg, s) && m < cfg.miners && si < cfg.subtrees
    requires Stored(hp, cfg, s, m, si, leaves) && Indexed(cfg, s, m, si, filed) && Fragmented(hp, cfg, s, m, si, leaves)
    ensures Coherent(hp, cfg, s, m, si, filed, leaves)
  {
    hide Stored, Indexed, Fragmented;
  }

  lemma RefreshedKept(hp: HashFn, cfg: Config, a: State, b: State, m: nat, leaves: seq<Hash>, fragments: map<nat, Data>)
    requires ValidConfig(cfg) && Shaped(cfg, a) && Shaped(cfg, b) && m < cfg.miners && a.index == b.index
    requires Refreshed(hp, cfg, a, m, 0, leaves, fragments)
    ensures Refreshed(hp, cfg, b, m, 0, leaves, fragments)
  {
    hide At, TokenName, ScanToken, FragmentFor, NoEmptyLists;
    assert forall ti: nat :: PositionsOf(a, m, 0, ti) == PositionsOf(b, m, 0, ti);
  }

  lemma BatchElsewhere(cfg: Config, a: State, b: State, end: State, m: nat, fragments: map<nat, Data>)
    requires Shaped(cfg, a) && Shaped(cfg, b) && Shaped(cfg, end) && m < cfg.miners
    requires SameElsewhere(cfg, a, b, m, 0)
    requires end.roots == b.roots && end.disk == b.disk && end.index == b.index
    requires BatchSaved(b.frags, end.frags, m, 0, fragments, fragments.Keys)
    ensures SameElsewhere(cfg, a, end, m, 0)
  {
    hide At, NoEmptyLists;
    forall m', si' | 0 <= m' < cfg.miners && 0 <= si' && (m', si') != (m, 0)
      ensures SameAt(cfg, a, end, m', si')
    {
      assert SameAt(cfg, a, b, m', si');
    }
  }

  lemma Finalized(hp: HashFn, cfg: Config, a: State, b: State, end: State, m: nat, filed: seq<Hash>,
                  before: seq<Hash>, leaves: seq<Hash>, fragments: map<nat, Data>)
    requires ValidConfig(cfg) && Shaped(cfg, a) && Shaped(cfg, b) && Shaped(cfg, end)
    requires m < cfg.miners && 0 < cfg.subtrees && cfg.fragments
    requires Indexed(cfg, a, m, 0, filed) && Fragmented(hp, cfg, a, m, 0, before) && a.index == b.index && a.frags == b.frags
    requires Stored(hp, cfg, b, m, 0, leaves) && SameElsewhere(cfg, a, b, m, 0)
    requires Refreshed(hp, cfg, b, m, 0, leaves, fragments)
    requires end.roots == b.roots && end.disk == b.disk && end.index == b.index
    requires BatchSaved(b.frags, end.frags, m, 0, fragments, fragments.Keys)
    ensures Coherent(hp, cfg, end, m, 0, filed, leaves) && SameElsewhere(cfg, a, end, m, 0)
  {
    hide *;
    IndexedFrame(cfg, a, end, m, 0, filed);
    RefreshedKept(hp, cfg, b, end, m, leaves, fragments);
    RefreshedFragmented(hp, cfg, a, end, m, 0, before, leaves, fragments);
    StoredKept(hp, cfg, b, end, m, 0, leaves);
    CoherentBy(hp, cfg, end, m, 0, filed, leaves);
    BatchElsewhere(cfg, a, b, end, m, fragments);
  }

  lemma FinalizedBare(hp: HashFn, cfg: Config, a: State, b: State, m: nat, filed: seq<Hash>, before: seq<Hash>, leaves: seq<Hash>)
    requires ValidConfig(cfg) && Shaped(cfg, a) && Shaped(cfg, b) && m < cfg.miners && 0 < cfg.subtrees && !cfg.fragments
    requires Indexed(cfg, a, m, 0, filed) && Fragmented(hp, cfg, a, m, 0, before) && a.index == b.index && a.frags == b.frags
    requires Stored(hp, cfg, b, m, 0, leaves)
    ensures Coherent(hp, cfg, b, m, 0, filed, leaves)
  {
    IndexedFrame(cfg, a, b, m, 0, filed);
    hide At, TokenName, ScanToken, FragmentFor, TokenOf, Stored;
  }

  /** The store of any leaves but none, a single leaf being its own. */
  ghost predicate StoreFor(hp: HashFn, leaves: seq<Hash>, store: seq<Hash>)
    requires |leaves| > 0
  {
    if |leaves| == 1 then store == leaves else IsStore(hp, leaves, store)
  }

  lemma BuiltStore(hp: HashFn, leaves: seq<Hash>, store: seq<Hash>)
    requires |leaves| > 0 && (|leaves| == 1 ==> store == [leaves[0]]) && (|leaves| >= 2 ==> IsStore(hp, leaves, store))
    ensures StoreFor(hp, leaves, store)
  {
    if |leaves| == 1 { assert [leaves[0]] == leaves; }
  }

  lemma BuiltFor(hp: HashFn, hps: nat, c: Cached)
    requires hps >= 2 && |c.leaves| == hps && StoreFor(hp, c.leaves, c.store)
    ensures Built(hp, hps, c, c.leaves)
  {}

  /** Subtree 0 of miner m holds these leaves, their store and root; with fragments on, each token's is made anew. */
  ghost predicate Resealed(hp: HashFn, cfg: Config, a: State, b: State, m: nat, leaves: seq<Hash>)
    requires ValidConfig(cfg) && Shaped(cfg, a) && m < cfg.miners && 0 < cfg.subtrees && |leaves| > 0
  {
    && b.index == a.index
    && (exists store ::
          && StoreFor(hp, leaves, store)
          && SubtreeSaved(a, m, 0, Cached(leaves, store), Root(hp, leaves)) == b.(frags := a.frags))
    && if cfg.fragments then
         exists fragments: map<nat, Data> ::
           && Refreshed(hp, cfg, a, m, 0, leaves, fragments)
           && BatchSaved(a.frags, b.frags, m, 0, fragments, fragments.Keys)
       else b.frags == a.frags
  }

  lemma ResealedBy(hp: HashFn, cfg: Config, a: State, b: State, m: nat, leaves: seq<Hash>, store: seq<Hash>, fragments: map<nat, Data>)
    requires ValidConfig(cfg) && Shaped(cfg, a) && m < cfg.miners && 0 < cfg.subtrees && |leaves| > 0
    requires StoreFor(hp, leaves, store) && b.index == a.index
    requires SubtreeSaved(a, m, 0, Cached(leaves, store), Root(hp, leaves)) == b.(frags := a.frags)
    requires cfg.fragments ==> Refreshed(hp, cfg, a, m, 0, leaves, fragments)
    requires if cfg.fragments then BatchSaved(a.frags, b.frags, m, 0, fragments, fragments.Keys) else b.frags == a.frags
    ensures Resealed(hp, cfg, a, b, m, leaves)
  {
    hide StoreFor, SubtreeSaved, Refreshed, BatchSaved;
  }

  lemma ResealedElsewhere(hp: HashFn, cfg: Config, a: State, b: State, m: nat, leaves: seq<Hash>)
    requires ValidConfig(cfg) && Shaped(cfg, a) && Shaped(cfg, b) && m < cfg.miners && 0 < cfg.subtrees && |leaves| > 0
    requires Resealed(hp, cfg, a, b, m, leaves)
    ensures SameElsewhere(cfg, a, b, m, 0)
  {
    var store :| SubtreeSaved(a, m, 0, Cached(leaves, store), Root(hp, leaves)) == b.(frags := a.frags);
    var mid := b.(frags := a.frags);
    hide Root, StoreFor, Refreshed, At;
    SavedElsewhere(cfg, a, m, 0, Cached(leaves, store), Root(hp, leaves));
    if cfg.fragments {
      var fragments: map<nat, Data> :| BatchSaved(a.frags, b.frags, m, 0, fragments, fragments.Keys);
      hide SubtreeSaved, SameElsewhere, BatchSaved, Shaped;
      BatchElsewhere(cfg, a, mid, b, m, fragments);
    }
  }

  /** A coherent subtree 0 is coherent again, with the new leaves, under the filing it had. */
  lemma ResealedCoherent(hp: HashFn, cfg: Config, a: State, b: State, m: nat, filed: seq<Hash>, before: seq<Hash>, leaves: seq<Hash>)
    requires ValidConfig(cfg) && Shaped(cfg, a) && Shaped(cfg, b) && m < cfg.miners && 0 < cfg.subtrees
    requires Coherent(hp, cfg, a, m, 0, filed, before) && |leaves| == |before| && |leaves| > 0
    requires Resealed(hp, cfg, a, b, m, leaves)
    ensures Coherent(hp, cfg, b, m, 0, filed, leaves)
  {
    var store :| StoreFor(hp, leaves, store) &&
      SubtreeSaved(a, m, 0, Cached(leaves, store), Root(hp, leaves)) == b.(frags := a.frags);
    var c, mid := Cached(leaves, store), b.(frags := a.frags);
    LoadedFacts(hp, cfg, a, m, filed, before);
    assert Built(hp, cfg.hps, c, leaves);
    assert Shaped(cfg, mid) && mid.index == a.index && mid.frags == a.frags;
    assert b.index == mid.index && b.roots == mid.roots && b.disk == mid.disk;
    if cfg.fragments {
      var fragments: map<nat, Data> :| Refreshed(hp, cfg, a, m, 0, leaves, fragments) &&
        BatchSaved(a.frags, b.frags, m, 0, fragments, fragments.Keys);
      hide *;
      SavedStored(hp, cfg, a, m, 0, c, Root(hp, leaves));
      RefreshedKept(hp, cfg, a, mid, m, leaves, fragments);
      Finalized(hp, cfg, a, mid, b, m, filed, before, leaves, fragments);
    } else {
      assert mid == b;
      hide *;
      SavedStored(hp, cfg, a, m, 0, c, Root(hp, leaves));
      FinalizedBare(hp, cfg, a, mid, m, filed, before, leaves);
    }
  }
}
