/**
  The life cycle: seal every subtree for every miner, index token positions, store fragments; then, once a winner
  is known, replace the coinbase in its subtree 0 and redo what that invalidates.
 */
module Registry {
  import opened Arith
  import opened Hashes
  import opened Bytes
  import opened MerkleStore
  import opened FragmentCodec
  import opened Emit
  import opened Worker
  import opened Fragments
  import opened Sorting
  import opened TokenIndex
  import opened Ledger
  import opened Sealing

  class Registry {
    const hp: HashFn
    const cfg: Config
    const index: seq<TokenSubtreeIndex>
    var roots: seq<seq<Hash>>
    var disk: map<(nat, nat), (Data, Data)>
    var frags: FragmentMap

    ghost function View(): State
      reads this, index
    {
      State(roots, disk, frags, seq(|index|, i requires 0 <= i < |index| reads index => index[i].entries))
    }

    ghost predicate Separate() {
      forall i, j :: 0 <= i < j < |index| ==> index[i] != index[j]
    }

    ghost predicate Valid()
      reads this, index
    {
      ValidConfig(cfg) && Shaped(cfg, View()) && Separate()
    }

    /** Empty stores and one empty token index a miner. */
    constructor (hp: HashFn, cfg: Config)
      requires ValidConfig(cfg)
      ensures this.hp == hp && this.cfg == cfg && Valid()
      ensures forall m, si :: 0 <= m < cfg.miners && 0 <= si ==> Untouched(cfg, View(), m, si)
      ensures forall i :: 0 <= i < |index| ==> fresh(index[i])
    {
      var list: seq<TokenSubtreeIndex> := [];
      for m := 0 to cfg.miners
        invariant |list| == m
        invariant forall i :: 0 <= i < m ==> fresh(list[i]) && list[i].entries == map[]
        invariant forall i, j :: 0 <= i < j < m ==> list[i] != list[j]
      {
        var ix := new TokenSubtreeIndex();
        list := list + [ix];
      }
      this.hp := hp;
      this.cfg := cfg;
      index := list;
      roots := seq(cfg.miners, _ => seq(cfg.subtrees, _ => ZERO_HASH));
      disk := map[];
      frags := map[];
    }

    method SaveSubtree(m: nat, si: nat, c: Cached, root: Hash)
      requires Valid() && m < cfg.miners && si < cfg.subtrees
      modifies this`roots, this`disk
      ensures View() == SubtreeSaved(old(View()), m, si, c, root)
    {
      roots := roots[m := roots[m][si := root]];
      var leavesBytes := HashSliceToBytes(c.leaves);
      var storeBytes := HashSliceToBytes(c.store);
      disk := disk[(m, si) := (leavesBytes, storeBytes)];
    }

    method SaveBatch(m: nat, si: nat, fragments: map<nat, Data>)
      requires Valid()
      modifies this`frags
      ensures Valid() && BatchSaved(old(frags), frags, m, si, fragments, fragments.Keys)
    {
      ghost var was := View();
      var keys := Keys(fragments);
      ghost var done: set<nat> := {};
      for i := 0 to |keys|
        invariant done == (set j | 0 <= j < i :: keys[j]) && done <= fragments.Keys
        invariant BatchSaved(old(frags), frags, m, si, fragments, done)
      {
        frags := frags[(m, keys[i], si) := fragments[keys[i]]];
        done := done + {keys[i]};
      }
      assert done == fragments.Keys;
      assert View().index == was.index && View().roots == was.roots;
    }

    /** Files one miner's batches for a subtree, token by token in any order. */
    method AddTokens(m: nat, si: nat, batches: map<nat, seq<nat>>)
      requires Valid() && m < cfg.miners
      modifies index[m]
      ensures Valid()
      ensures forall i :: 0 <= i < |index| && i != m ==> index[i].entries == old(index[i].entries)
      ensures TokensAdded(old(index[m].entries), index[m].entries, si, batches, batches.Keys)
    {
      hide At, TokenName, ScanToken;
      var keys := Keys(batches);
      var ix := index[m];
      ghost var before := ix.entries;
      ghost var was := View();
      assert was.index[m] == before;
      ghost var done: set<nat> := {};
      for i := 0 to |keys|
        invariant ix == index[m] && NoEmptyLists(ix.entries)
        invariant done == (set j | 0 <= j < i :: keys[j]) && done <= batches.Keys
        invariant TokensAdded(before, ix.entries, si, batches, done)
        invariant forall j :: 0 <= j < |index| && j != m ==> index[j].entries == old(index[j].entries)
      {
        var ti := keys[i];
        ghost var mid := ix.entries;
        ix.AddBatch(TokenName(ti), si, batches[ti]);
        TokenAdded(before, mid, ix.entries, si, batches, done, ti);
        done := done + {ti};
      }
      assert done == batches.Keys;
      assert forall j :: 0 <= j < |index| && j != m ==> View().index[j] == was.index[j];
    }

    lemma ValidFacts()
      requires Valid()
      ensures ValidConfig(cfg) && Shaped(cfg, View()) && Separate()
      ensures |index| == cfg.miners && forall m :: 0 <= m < cfg.miners ==> View().index[m] == index[m].entries
      ensures View().roots == roots && View().disk == disk && View().frags == frags
    {}

    lemma StillValid()
      requires ValidConfig(cfg) && Shaped(cfg, View()) && Separate()
      ensures Valid()
    {}

    /** Every miner's leaves, store and root for one subtree. */
    method SaveAll(si: nat, subs: seq<Cached>)
      requires Valid() && si < cfg.subtrees && |subs| == cfg.miners && AllBuilt(hp, cfg.hps, subs)
      modifies this`roots, this`disk
      ensures Valid() && AllStored(hp, cfg, View(), si, subs, cfg.miners)
      ensures View().index == old(View()).index && frags == old(frags)
      ensures SameOther(cfg, old(View()), View(), si)
    {
      hide *;
      hide Valid;
      ghost var start := View();
      ValidFacts();
      NoneStored(hp, cfg, start, si, subs);
      var m := 0;
      while m < cfg.miners
        invariant m <= cfg.miners && Valid() && Shaped(cfg, View()) && AllStored(hp, cfg, View(), si, subs, m)
        invariant View().index == start.index && View().frags == start.frags && frags == old(frags)
        invariant SameOther(cfg, start, View(), si)
      {
        var root := SubtreeRoot(hp, cfg.hps, subs, m);
        ghost var a := View();
        SaveSubtree(m, si, subs[m], root);
        OneStored(hp, cfg, start, a, si, subs, m, root);
        StillValid();
        m := m + 1;
      }
    }

    lemma FilingDone(a: State, m: nat, si: nat, batches: map<nat, seq<nat>>, fragments: map<nat, Data>)
      requires Valid() && Shaped(cfg, a) && m < cfg.miners && roots == a.roots && disk == a.disk
      requires |index| == cfg.miners && forall i :: 0 <= i < |index| && i != m ==> index[i].entries == a.index[i]
      requires TokensAdded(a.index[m], index[m].entries, si, batches, batches.Keys)
      requires BatchSaved(a.frags, frags, m, si, fragments, fragments.Keys)
      ensures Filing(cfg, a, View(), m, si, batches, fragments)
      ensures TokensAdded(a.index[m], View().index[m], si, batches, batches.Keys)
    {}

    /** One miner's pass over a sealed subtree: index its tokens' positions, extract and store their fragments. */
    method IndexMiner(m: nat, si: nat, base: seq<Hash>, c: Cached)
      requires Valid() && m < cfg.miners && si < cfg.subtrees && Untouched(cfg, View(), m, si)
      requires Built(hp, cfg.hps, c, c.leaves) && NoRepeats(base) && NoRepeats(c.leaves) && multiset(base) == multiset(c.leaves)
      modifies this`frags, index[m]
      ensures Valid() && roots == old(roots) && disk == old(disk)
      ensures Indexed(cfg, View(), m, si, c.leaves) && Fragmented(hp, cfg, View(), m, si, c.leaves)
      ensures SameElsewhere(cfg, old(View()), View(), m, si)
      ensures forall ix :: ix in index && ix != index[m] ==> ix.entries == old(ix.entries)
    {
      hide *;
      ValidFacts();
      ghost var a := View();
      BuiltFacts(hp, cfg.hps, c, c.leaves);
      var batches := IndexSubtree(cfg.businesses, base, c.leaves);
      AddTokens(m, si, batches);
      var fragments: map<nat, Data> := map[];
      if cfg.fragments {
        CollectedInSubtree(hp, cfg.businesses, cfg.hps, base, c, batches);
        fragments := ExtractBatch(hp, cfg, si, c, batches);
        SaveBatch(m, si, fragments);
      } else {
        NothingSaved(frags, m, si);
      }
      ValidFacts();
      FilingDone(a, m, si, batches, fragments);
      FiledElsewhere(cfg, a, View(), m, si, batches, fragments);
      FilingFragmented(hp, cfg, a, View(), m, si, base, c.leaves, batches, fragments);
      FilingIndexed(cfg, a, View(), m, si, base, c.leaves, batches);
    }

    /** The indexing pass over all miners. */
    method IndexAll(si: nat, base: seq<Hash>, subs: seq<Cached>)
      requires Valid() && si < cfg.subtrees && |subs| == cfg.miners && AllBuilt(hp, cfg.hps, subs)
      requires AllStored(hp, cfg, View(), si, subs, cfg.miners) && AllOrders(base, subs)
      requires forall m :: 0 <= m < cfg.miners ==> Untouched(cfg, View(), m, si)
      modifies this`frags, index
      ensures Valid() && AllCoherent(hp, cfg, View(), si, subs, cfg.miners)
      ensures SameOther(cfg, old(View()), View(), si)
    {
      hide *;
      ghost var start := View();
      ValidFacts();
      NoneIndexed(hp, cfg, start, si, subs);
      var m := 0;
      while m < cfg.miners
        invariant m <= cfg.miners && Valid() && Shaped(cfg, View())
        invariant AllCoherent(hp, cfg, View(), si, subs, m) && RestStored(hp, cfg, View(), si, subs, m)
        invariant SameOther(cfg, start, View(), si)
      {
        ValidFacts();
        ghost var a := View();
        NextMiner(hp, cfg, a, si, base, subs, m);
        IndexMiner(m, si, base, subs[m]);
        ValidFacts();
        OneIndexed(hp, cfg, start, a, View(), si, subs, m);
        m := m + 1;
      }
    }

    /** One subtree boundary: every miner builds it, saves it, then indexes it. */
    method SealSubtree(si: nat, txids: seq<Hash>, draws: Draws, numCPU: nat)
      requires Valid() && si < cfg.subtrees && ValidTxids(cfg, txids) && DrawsFit(cfg, draws)
      requires forall m :: 0 <= m < cfg.miners ==> Untouched(cfg, View(), m, si)
      modifies this`roots, this`disk, this`frags, index
      ensures Valid() && SubtreeSealed(hp, cfg, View(), txids, draws, si)
      ensures SameOther(cfg, old(View()), View(), si)
    {
      hide *;
      ValidFacts();
      ghost var start := View();
      SealFacts(cfg, txids, draws, si);
      var base := Slice(cfg, txids, si);
      var subs := BuildAll(hp, cfg, base, si, draws, numCPU);
      BuiltOrders(hp, cfg, txids, draws, si, subs);
      SaveAll(si, subs);
      ValidFacts();
      ghost var mid := View();
      StillUntouched(cfg, start, mid, si);
      IndexAll(si, base, subs);
      ValidFacts();
      SubtreeDone(hp, cfg, start, mid, View(), txids, draws, si, subs);
    }

    method StartSealing()
      requires Valid()
      requires forall m, si :: 0 <= m < cfg.miners && 0 <= si ==> Untouched(cfg, View(), m, si)
      modifies this`roots
      ensures Valid()
      ensures forall m, si :: 0 <= m < cfg.miners && 0 <= si ==> Untouched(cfg, View(), m, si)
    {
      hide At, NoEmptyLists;
      ghost var was := View();
      roots := seq(cfg.miners, _ => seq(cfg.subtrees, _ => ZERO_HASH));
      assert View().index == was.index && View().frags == was.frags;
      forall m, si | 0 <= m < cfg.miners && 0 <= si
        ensures Untouched(cfg, View(), m, si)
      {
        assert Untouched(cfg, was, m, si);
      }
    }

    /** Phase 2: seals every subtree in turn. Roots start as zero hashes. */
    method SealSubtreesToDisk(txids: seq<Hash>, draws: Draws, numCPU: nat)
      requires Valid() && ValidTxids(cfg, txids) && DrawsFit(cfg, draws)
      requires forall m, si :: 0 <= m < cfg.miners && 0 <= si ==> Untouched(cfg, View(), m, si)
      modifies this`roots, this`disk, this`frags, index
      ensures Valid()
      ensures forall m, si :: 0 <= m < cfg.miners && 0 <= si < cfg.subtrees ==>
        var leaves := MinerLeaves(cfg, txids, draws, m, si);
        Coherent(hp, cfg, View(), m, si, leaves, leaves)
      ensures BlockStored(cfg, View(), txids)
      ensures forall m, si :: 0 <= m < cfg.miners && cfg.subtrees <= si ==> Untouched(cfg, View(), m, si)
    {
      StartSealing();
      hide *;
      ValidFacts();
      NoneSealed(hp, cfg, View(), txids, draws);
      var si := 0;
      while si < cfg.subtrees
        invariant si <= cfg.subtrees && Valid() && Shaped(cfg, View()) && SealedUpTo(hp, cfg, View(), txids, draws, si)
      {
        ValidFacts();
        ghost var a := View();
        SealingNext(hp, cfg, a, txids, draws, si);
        SealSubtree(si, txids, draws, numCPU);
        ValidFacts();
        SealingStep(hp, cfg, a, View(), txids, draws, si);
        si := si + 1;
      }
      AllSealed(hp, cfg, View(), txids, draws);
      SealedConserves(hp, cfg, View(), txids, draws);
    }

    /** Fragments of subtree si again, from new leaves, for every token that has positions there. */
    method ExtractAgain(m: nat, si: nat, c: Cached) returns (fragments: map<nat, Data>)
      requires Valid() && m < cfg.miners && Built(hp, cfg.hps, c, c.leaves)
      requires WellFiled(cfg, View(), m, si)
      ensures Refreshed(hp, cfg, View(), m, si, c.leaves, fragments)
    {
      hide *;
      ValidFacts();
      BuiltFacts(hp, cfg.hps, c, c.leaves);
      var ws := new WorkerState(Log2(cfg.hps));
      var ix := index[m];
      ghost var s := View();
      IndexFacts(cfg, s, m);
      var tokens := ix.Tokens();
      fragments := map[];
      NoneRefreshed(hp, cfg.hps, si, c.leaves, ix.entries);
      for i := 0 to |tokens|
        invariant fresh(ws) && fresh(ws.bitset) && ix.entries == s.index[m]
        invariant SomeRefreshed(hp, cfg.hps, si, c.leaves, ix.entries, fragments, tokens[..i])
      {
        assert tokens[..i + 1] == tokens[..i] + [tokens[i]];
        var localIdxs := ix.Get(tokens[i], si);
        if |localIdxs| == 0 {
          SkipRefresh(hp, cfg.hps, si, c.leaves, ix.entries, fragments, tokens[..i], tokens[i]);
          continue;
        }
        var ti := ScanToken(tokens[i]);
        TokenFacts(cfg, s, m, si, tokens[i]);
        var levels, order := ExtractSubtreeFragment(c.leaves, c.store, localIdxs, si, cfg.hps, Log2(cfg.hps), ws);
        var data := MarshalFragment(levels);
        OneRefreshed(hp, cfg.hps, si, c, ix.entries, fragments, tokens[..i], tokens[i], order, levels, data);
        fragments := fragments[ti := data];
      }
      assert tokens[..|tokens|] == tokens;
      EachRefreshed(hp, cfg, s, m, si, c.leaves, fragments, tokens);
    }

    /**
      Phase 4: the winner's subtree 0 is loaded, the old coinbase replaced, and store, root and fragments redone.
      The result is false when the subtree cannot be loaded. What is stored need not agree with anything: it must
      hold a leaf, and with fragments on as many as a subtree has, with positions filed in range under token names.
     */
    method FinalizeBlock(winner: nat, coinbase: Hash, firstTxid: Hash, numCPU: nat) returns (ok: bool)
      requires Valid() && winner < cfg.miners && 0 < cfg.subtrees
      requires (winner, 0) in disk ==> |BytesHashes(disk[(winner, 0)].0)| > 0
      requires (winner, 0) in disk && cfg.fragments ==>
        |BytesHashes(disk[(winner, 0)].0)| == cfg.hps && WellFiled(cfg, View(), winner, 0)
      modifies this`roots, this`disk, this`frags
      ensures Valid() && View().index == old(View()).index
      ensures ok <==> (winner, 0) in old(disk)
      ensures !ok ==> View() == old(View())
      ensures ok ==> Resealed(hp, cfg, old(View()), View(), winner,
                              ReplaceFirst(BytesHashes(old(disk)[(winner, 0)].0), firstTxid, coinbase))
      ensures SameElsewhere(cfg, old(View()), View(), winner, 0)
    {
      hide *;
      ValidFacts();
      ghost var a := View();
      SameNothing(cfg, a, winner);
      if (winner, 0) !in disk {
        return false;
      }
      var found := BytesToHashSlice(disk[(winner, 0)].0);
      var swapped, replaced := ReplaceCoinbase(found, firstTxid, coinbase);
      var store := BuildMerkleStore(hp, swapped, numCPU);
      BuiltStore(hp, swapped, store);
      var root := store[|store| - 1];
      var c := Cached(swapped, store);
      SaveSubtree(winner, 0, c, root);
      SavedElsewhere(cfg, a, winner, 0, c, root);
      ghost var b := View();
      SavedKeeps(a, winner, 0, c, root);
      StillValid();
      ValidFacts();
      ghost var made: map<nat, Data> := map[];
      if cfg.fragments {
        FiledKept(cfg, a, b, winner);
        BuiltFor(hp, cfg.hps, c);
        var fragments := ExtractAgain(winner, 0, c);
        made := fragments;
        RefreshedKept(hp, cfg, b, a, winner, swapped, fragments);
        SaveBatch(winner, 0, fragments);
        ValidFacts();
      }
      ResealedBy(hp, cfg, a, View(), winner, swapped, store, made);
      ResealedElsewhere(hp, cfg, a, View(), winner, swapped);
      ok := true;
    }
  }
}
