/**
  What the sealing pipeline leaves behind, as values: for every miner and subtree the stored leaves and store,
  the root, the token index and the fragments, and what it means that they agree.
 */
module Ledger {
  import opened Arith
  import opened Hashes
  import opened Bytes
  import opened Tree
  import opened FragmentCodec
  import opened Emit
  import opened Fragments
  import opened Sorting
  import opened TokenIndex
  import opened Bump

  // ---- Tokens --------------------------------------------------------------------------------------

  /** The token a txid derives: its first eight bytes, little-endian, modulo the number of businesses. */
  function TokenOf(businesses: nat, txid: Hash): (ti: nat)
    requires businesses > 0
    ensures ti < businesses
  {
    FromLE(txid.bytes[..8]) % businesses
  }

  /** The first eight bytes of a txid, the first one lowest. */
  function FirstEight(txid: Hash): nat {
    var b: seq<nat> := txid.bytes;
    b[0] + 0x100 * b[1] + 0x1_0000 * b[2] + 0x100_0000 * b[3] + 0x1_0000_0000 * b[4] + 0x100_0000_0000 * b[5]
      + 0x1_0000_0000_0000 * b[6] + 0x100_0000_0000_0000 * b[7]
  }

  lemma FromTail(s: Data, i: nat)
    requires i < |s|
    ensures FromLE(s[i..]) == s[i] + 256 * FromLE(s[i + 1..])
  {
    assert s[i..][1..] == s[i + 1..];
  }

  lemma FromEight(s: Data, d: seq<nat>)
    requires |s| == 8 && d == s
    ensures FromLE(s) == d[0] + 0x100 * d[1] + 0x1_0000 * d[2] + 0x100_0000 * d[3] + 0x1_0000_0000 * d[4]
                         + 0x100_0000_0000 * d[5] + 0x1_0000_0000_0000 * d[6] + 0x100_0000_0000_0000 * d[7]
  {
    assert FromLE(s[8..]) == 0;
    FromTail(s, 7);
    FromTail(s, 6);
    FromTail(s, 5);
    FromTail(s, 4);
    FromTail(s, 3);
    FromTail(s, 2);
    FromTail(s, 1);
    FromTail(s, 0);
    hide FromLE;
    assert s[0..] == s;
  }

  /** The token, byte by byte. */
  lemma TokenBytes(businesses: nat, txid: Hash)
    requires businesses > 0
    ensures var b: seq<nat> := txid.bytes;
      TokenOf(businesses, txid) ==
        (b[0] + 256 * b[1] + 65536 * b[2] + 16777216 * b[3] + 4294967296 * b[4] + 1099511627776 * b[5]
         + 281474976710656 * b[6] + 72057594037927936 * b[7]) % businesses
    ensures TokenOf(businesses, txid) == FirstEight(txid) % businesses
  {
    FromEight(txid.bytes[..8], txid.bytes[..8]);
    hide FromLE;
  }

  /** list holds each position of the token's txids, once. */
  ghost predicate Filed(businesses: nat, leaves: seq<Hash>, list: seq<nat>, ti: nat)
    requires businesses > 0
  {
    && NoRepeats(list)
    && (forall i: nat :: i in list <==> i < |leaves| && TokenOf(businesses, leaves[i]) == ti)
  }

  /** Filing by bytes: a position is in a token's list exactly when the first eight bytes of its txid leave that token. */
  lemma FiledBytes(businesses: nat, leaves: seq<Hash>, list: seq<nat>, ti: nat)
    requires businesses > 0 && Filed(businesses, leaves, list, ti)
    ensures NoRepeats(list)
    ensures forall i: nat :: i in list <==> i < |leaves| && FirstEight(leaves[i]) % businesses == ti
  {
    hide TokenOf, FirstEight, NoRepeats;
    forall i: nat
      ensures i in list <==> i < |leaves| && FirstEight(leaves[i]) % businesses == ti
    {
      if i < |leaves| { TokenBytes(businesses, leaves[i]); }
    }
  }

  // ---- Hash slices as bytes ------------------------------------------------------------------------

  method HashSliceToBytes(hashes: seq<Hash>) returns (data: Data)
    ensures data == HashBytes(hashes)
  {
    var buf := new Byte[|hashes| * HASH_SIZE];
    var i := 0;
    assert hashes[..0] == [];
    while i < |hashes|
      invariant i <= |hashes|
      invariant FilledTo(buf[..], i * HASH_SIZE, HashBytes(hashes[..i]))
    {
      ghost var before := buf[..];
      PutBytes(buf, i * HASH_SIZE, hashes[i].bytes);
      FilledStep(before, buf[..], i * HASH_SIZE, HashBytes(hashes[..i]), hashes[i].bytes);
      assert hashes[..i + 1] == hashes[..i] + [hashes[i]];
      HashBytesSnoc(hashes[..i], hashes[i]);
      i := i + 1;
    }
    assert hashes[..i] == hashes && buf[..i * HASH_SIZE] == buf[..];
    data := buf[..];
  }

  method BytesToHashSlice(data: Data) returns (hashes: seq<Hash>)
    ensures hashes == BytesHashes(data)
  {
    var n := |data| / HASH_SIZE;
    BytesHashesLength(data);
    hashes := [];
    for i := 0 to n
      invariant |hashes| == i
      invariant forall j :: 0 <= j < i ==> hashes[j] == BytesHashes(data)[j]
    {
      BytesHashesAt(data, i);
      hashes := hashes + [Hash(data[i * HASH_SIZE..(i + 1) * HASH_SIZE])];
    }
  }

  // ---- Jitter --------------------------------------------------------------------------------------

  ghost predicate SwapsFit(n: nat, swaps: seq<nat>) {
    n >= 2 ==> forall i :: 0 <= i < |swaps| ==> swaps[i] < n - 1
  }

  function Exchange(s: seq<Hash>, pos: nat): (r: seq<Hash>)
    requires pos + 1 < |s|
    ensures |r| == |s|
  {
    s[pos := s[pos + 1]][pos + 1 := s[pos]]
  }

  /** A miner's order: adjacent pairs swapped one after the other. */
  ghost function Swapped(txids: seq<Hash>, swaps: seq<nat>): (r: seq<Hash>)
    requires SwapsFit(|txids|, swaps)
    ensures |r| == |txids|
  {
    if swaps == [] || |txids| < 2 then txids
    else Exchange(Swapped(txids, swaps[..|swaps| - 1]), swaps[|swaps| - 1])
  }

  lemma SwapPermutes(s: seq<Hash>, pos: nat)
    requires pos + 1 < |s|
    ensures multiset(Exchange(s, pos)) == multiset(s)
  {}

  /** Any run of adjacent swaps conserves the txids. */
  lemma {:induction false} SwappedPermutes(txids: seq<Hash>, swaps: seq<nat>)
    requires SwapsFit(|txids|, swaps)
    ensures multiset(Swapped(txids, swaps)) == multiset(txids)
  {
    if swaps != [] && |txids| >= 2 {
      SwappedPermutes(txids, swaps[..|swaps| - 1]);
      SwapPermutes(Swapped(txids, swaps[..|swaps| - 1]), swaps[|swaps| - 1]);
    }
  }

  /** A draw exchanges two neighbours and leaves the rest; no draws, or fewer than two txids, leave everything. */
  lemma OneSwap(txids: seq<Hash>, p: nat)
    requires p + 1 < |txids|
    ensures Swapped(txids, []) == txids
    ensures var r := Swapped(txids, [p]);
      && r[p] == txids[p + 1] && r[p + 1] == txids[p]
      && forall i :: 0 <= i < |txids| && i != p && i != p + 1 ==> r[i] == txids[i]
  {
    assert [p][..0] == [];
  }

  lemma NothingSwapped(txids: seq<Hash>, swaps: seq<nat>)
    requires |txids| < 2 || swaps == []
    ensures Swapped(txids, swaps) == txids
  {}

  lemma SwappedLast(txids: seq<Hash>, swaps: seq<nat>)
    requires SwapsFit(|txids|, swaps) && swaps != [] && |txids| >= 2
    ensures Swapped(txids, swaps) == Exchange(Swapped(txids, swaps[..|swaps| - 1]), swaps[|swaps| - 1])
  {}

  /** Draws act one after the other: a run of them on what an earlier run left. */
  lemma {:induction false} SwappedRuns(txids: seq<Hash>, a: seq<nat>, b: seq<nat>)
    requires SwapsFit(|txids|, a) && SwapsFit(|txids|, b)
    ensures SwapsFit(|txids|, a + b)
    ensures Swapped(txids, a + b) == Swapped(Swapped(txids, a), b)
  {
    hide Swapped, Exchange;
    var mid := Swapped(txids, a);
    if b == [] || |txids| < 2 {
      assert b == [] ==> a + b == a;
      NothingSwapped(mid, b);
      if |txids| < 2 {
        NothingSwapped(txids, a);
        NothingSwapped(txids, a + b);
      }
    } else {
      var init := b[..|b| - 1];
      assert (a + b)[..|a + b| - 1] == a + init && (a + b)[|a + b| - 1] == b[|b| - 1];
      SwappedRuns(txids, a, init);
      SwappedLast(txids, a + b);
      SwappedLast(mid, b);
    }
  }

  /** `swaps` are the positions the generator draws for this miner and subtree; a miner without jitter has none. */
  method JitterTxids(txids: seq<Hash>, swaps: seq<nat>) returns (leaves: seq<Hash>)
    requires SwapsFit(|txids|, swaps)
    ensures leaves == Swapped(txids, swaps)
  {
    var result := new Hash[|txids|](i requires 0 <= i < |txids| => txids[i]);
    assert result[..] == txids;
    if |swaps| == 0 || |txids| < 2 {
      return result[..];
    }
    assert swaps[..0] == [];
    for i := 0 to |swaps|
      invariant result[..] == Swapped(txids, swaps[..i])
    {
      assert swaps[..i + 1][..i] == swaps[..i];
      var pos := swaps[i];
      result[pos], result[pos + 1] := result[pos + 1], result[pos];
    }
    assert swaps[..|swaps|] == swaps;
    leaves := result[..];
  }

  // ---- Indexing one subtree ------------------------------------------------------------------------

  function ListOf(batches: map<nat, seq<nat>>, ti: nat): seq<nat> {
    if ti in batches then batches[ti] else []
  }

  /** list holds, once each, the positions of the token's txids that are among the canonical txids `base`. */
  ghost predicate FiledAmong(businesses: nat, base: seq<Hash>, leaves: seq<Hash>, list: seq<nat>, ti: nat)
    requires businesses > 0
  {
    && NoRepeats(list)
    && (forall i: nat :: i in list <==> i < |leaves| && leaves[i] in base && TokenOf(businesses, leaves[i]) == ti)
  }

  /** Positions collected for each token from the canonical txids `base`. */
  ghost predicate Collected(businesses: nat, base: seq<Hash>, leaves: seq<Hash>, batches: map<nat, seq<nat>>)
    requires businesses > 0
  {
    && (forall ti :: ti in batches ==> batches[ti] != [])
    && (forall ti :: FiledAmong(businesses, base, leaves, ListOf(batches, ti), ti))
  }

  ghost predicate Before(base: seq<Hash>, first: Hash, second: Hash) {
    exists i, j :: 0 <= i < j < |base| && base[i] == first && base[j] == second
  }

  /** The listed positions are those of txids that come in this order among `base`. */
  ghost predicate InBaseOrder(base: seq<Hash>, leaves: seq<Hash>, list: seq<nat>) {
    && (forall a :: 0 <= a < |list| ==> list[a] < |leaves|)
    && (forall a, b :: 0 <= a < b < |list| ==> Before(base, leaves[list[a]], leaves[list[b]]))
  }

  ghost predicate AllInOrder(base: seq<Hash>, leaves: seq<Hash>, batches: map<nat, seq<nat>>) {
    forall ti :: InBaseOrder(base, leaves, ListOf(batches, ti))
  }

  lemma BeforeStill(done: seq<Hash>, txid: Hash, first: Hash, second: Hash)
    requires Before(done, first, second)
    ensures Before(done + [txid], first, second)
  {
    var i, j :| 0 <= i < j < |done| && done[i] == first && done[j] == second;
    assert (done + [txid])[i] == first && (done + [txid])[j] == second;
  }

  lemma BeforeLast(done: seq<Hash>, first: Hash, txid: Hash)
    requires first in done
    ensures Before(done + [txid], first, txid)
  {
    var i :| 0 <= i < |done| && done[i] == first;
    assert (done + [txid])[i] == first && (done + [txid])[|done|] == txid;
  }

  lemma OrderStep(done: seq<Hash>, txid: Hash, leaves: seq<Hash>, list: seq<nat>, li: nat)
    requires InBaseOrder(done, leaves, list) && li < |leaves| && leaves[li] == txid
    requires forall i :: i in list ==> i < |leaves| && leaves[i] in done
    ensures InBaseOrder(done + [txid], leaves, list) && InBaseOrder(done + [txid], leaves, list + [li])
  {
    hide Before;
    var more := list + [li];
    forall a, b | 0 <= a < b < |more|
      ensures Before(done + [txid], leaves[more[a]], leaves[more[b]])
    {
      assert more[a] == list[a] && list[a] in list;
      if b < |list| {
        BeforeStill(done, txid, leaves[list[a]], leaves[list[b]]);
      } else {
        BeforeLast(done, leaves[list[a]], txid);
      }
    }
    forall a, b | 0 <= a < b < |list|
      ensures Before(done + [txid], leaves[list[a]], leaves[list[b]])
    {
      BeforeStill(done, txid, leaves[list[a]], leaves[list[b]]);
    }
  }

  lemma OrderSkip(done: seq<Hash>, txid: Hash, leaves: seq<Hash>, list: seq<nat>)
    requires InBaseOrder(done, leaves, list)
    ensures InBaseOrder(done + [txid], leaves, list)
  {
    hide Before;
    forall a, b | 0 <= a < b < |list|
      ensures Before(done + [txid], leaves[list[a]], leaves[list[b]])
    {
      BeforeStill(done, txid, leaves[list[a]], leaves[list[b]]);
    }
  }

  lemma AllOrderStep(businesses: nat, done: seq<Hash>, txid: Hash, leaves: seq<Hash>, batches: map<nat, seq<nat>>, own: nat, li: nat)
    requires businesses > 0 && Collected(businesses, done, leaves, batches) && AllInOrder(done, leaves, batches)
    requires li < |leaves| && leaves[li] == txid
    ensures AllInOrder(done + [txid], leaves, batches[own := ListOf(batches, own) + [li]])
  {
    hide TokenOf, InBaseOrder;
    var after := batches[own := ListOf(batches, own) + [li]];
    forall ti
      ensures InBaseOrder(done + [txid], leaves, ListOf(after, ti))
    {
      assert FiledAmong(businesses, done, leaves, ListOf(batches, ti), ti);
      OrderStep(done, txid, leaves, ListOf(batches, ti), li);
    }
  }

  lemma AllOrderSkip(done: seq<Hash>, txid: Hash, leaves: seq<Hash>, batches: map<nat, seq<nat>>)
    requires AllInOrder(done, leaves, batches)
    ensures AllInOrder(done + [txid], leaves, batches)
  {
    hide InBaseOrder, ListOf;
    forall ti
      ensures InBaseOrder(done + [txid], leaves, ListOf(batches, ti))
    {
      OrderSkip(done, txid, leaves, ListOf(batches, ti));
    }
  }

  ghost predicate Reverse(leaves: seq<Hash>, localIdx: map<Hash, nat>) {
    && (forall i :: 0 <= i < |leaves| ==> leaves[i] in localIdx && localIdx[leaves[i]] == i)
    && (forall h :: h in localIdx ==> localIdx[h] < |leaves| && leaves[localIdx[h]] == h)
  }

  method ReverseIndex(leaves: seq<Hash>) returns (localIdx: map<Hash, nat>)
    requires NoRepeats(leaves)
    ensures Reverse(leaves, localIdx)
  {
    localIdx := map[];
    for i := 0 to |leaves|
      invariant Reverse(leaves[..i], localIdx)
    {
      localIdx := localIdx[leaves[i] := i];
    }
    assert leaves[..|leaves|] == leaves;
  }

  lemma FiledStep(businesses: nat, done: seq<Hash>, txid: Hash, leaves: seq<Hash>, list: seq<nat>, ti: nat, li: nat)
    requires businesses > 0 && FiledAmong(businesses, done, leaves, list, ti) && NoRepeats(leaves)
    requires li < |leaves| && leaves[li] == txid && txid !in done
    ensures FiledAmong(businesses, done + [txid], leaves,
                       if TokenOf(businesses, txid) == ti then list + [li] else list, ti)
  {
    hide TokenOf;
    assert li !in list;
    NoRepeatsAppend(list, [li]);
    assert forall h :: h in done + [txid] <==> h in done || h == txid;
    assert forall i :: i in list + [li] <==> i in list || i == li;
  }

  lemma CollectedStep(businesses: nat, done: seq<Hash>, txid: Hash, leaves: seq<Hash>, batches: map<nat, seq<nat>>, li: nat)
    requires businesses > 0 && Collected(businesses, done, leaves, batches) && NoRepeats(leaves)
    requires li < |leaves| && leaves[li] == txid && txid !in done
    ensures var ti := TokenOf(businesses, txid);
      Collected(businesses, done + [txid], leaves, batches[ti := ListOf(batches, ti) + [li]])
  {
    hide TokenOf, FiledAmong;
    var own := TokenOf(businesses, txid);
    var after := batches[own := ListOf(batches, own) + [li]];
    forall ti
      ensures FiledAmong(businesses, done + [txid], leaves, ListOf(after, ti), ti)
    {
      FiledStep(businesses, done, txid, leaves, ListOf(batches, ti), ti, li);
    }
  }

  lemma SkippedStep(businesses: nat, done: seq<Hash>, txid: Hash, leaves: seq<Hash>, batches: map<nat, seq<nat>>)
    requires businesses > 0 && Collected(businesses, done, leaves, batches) && txid !in leaves
    ensures Collected(businesses, done + [txid], leaves, batches)
  {
    hide TokenOf, ListOf;
    forall ti
      ensures FiledAmong(businesses, done + [txid], leaves, ListOf(batches, ti), ti)
    {
      assert FiledAmong(businesses, done, leaves, ListOf(batches, ti), ti);
      assert forall h :: h in done + [txid] <==> h in done || h == txid;
    }
  }

  lemma NoneInOrder(leaves: seq<Hash>)
    ensures AllInOrder([], leaves, map[])
  {
    assert forall ti: nat :: ListOf(map[], ti) == [];
  }

  lemma NoneCollected(businesses: nat, leaves: seq<Hash>)
    requires businesses > 0
    ensures Collected(businesses, [], leaves, map[])
  {
    forall ti
      ensures FiledAmong(businesses, [], leaves, ListOf(map[], ti), ti)
    {
      assert ListOf(map[], ti) == [];
    }
  }

  /** list holds the positions of canonical txids whose first eight bytes leave ti modulo the number of businesses. */
  ghost predicate FiledByBytes(businesses: nat, base: seq<Hash>, leaves: seq<Hash>, list: seq<nat>, ti: nat)
    requires businesses > 0
  {
    forall i: nat :: i in list <==> i < |leaves| && leaves[i] in base && FirstEight(leaves[i]) % businesses == ti
  }

  lemma CollectedBytes(businesses: nat, base: seq<Hash>, leaves: seq<Hash>, batches: map<nat, seq<nat>>)
    requires businesses > 0 && Collected(businesses, base, leaves, batches)
    ensures forall ti: nat :: FiledByBytes(businesses, base, leaves, ListOf(batches, ti), ti)
  {
    hide TokenOf, FirstEight, ListOf;
    forall ti: nat
      ensures FiledByBytes(businesses, base, leaves, ListOf(batches, ti), ti)
    {
      assert FiledAmong(businesses, base, leaves, ListOf(batches, ti), ti);
      forall i: nat
        ensures i in ListOf(batches, ti) <==> i < |leaves| && leaves[i] in base && FirstEight(leaves[i]) % businesses == ti
      {
        if i < |leaves| { TokenBytes(businesses, leaves[i]); }
      }
    }
  }

  /** The canonical pass: each txid's token, and its place in this miner's order; txids the miner lacks are skipped. */
  method IndexSubtree(businesses: nat, base: seq<Hash>, leaves: seq<Hash>) returns (batches: map<nat, seq<nat>>)
    requires businesses > 0 && NoRepeats(leaves) && NoRepeats(base)
    ensures Collected(businesses, base, leaves, batches)
    ensures forall ti: nat :: FiledByBytes(businesses, base, leaves, ListOf(batches, ti), ti)
    ensures AllInOrder(base, leaves, batches)
  {
    hide Collected, FiledByBytes, AllInOrder;
    var localIdx := ReverseIndex(leaves);
    batches := map[];
    NoneCollected(businesses, leaves);
    NoneInOrder(leaves);
    var j := 0;
    while j < |base|
      invariant j <= |base| && Collected(businesses, base[..j], leaves, batches)
      invariant AllInOrder(base[..j], leaves, batches)
    {
      var txid := base[j];
      assert base[..j + 1] == base[..j] + [txid] && txid !in base[..j];
      j := j + 1;
      var ti := TokenOf(businesses, txid);
      if txid !in localIdx {
        SkippedStep(businesses, base[..j - 1], txid, leaves, batches);
        AllOrderSkip(base[..j - 1], txid, leaves, batches);
        continue;
      }
      var li := localIdx[txid];
      CollectedStep(businesses, base[..j - 1], txid, leaves, batches, li);
      AllOrderStep(businesses, base[..j - 1], txid, leaves, batches, ti, li);
      batches := batches[ti := ListOf(batches, ti) + [li]];
    }
    assert base[..j] == base;
    CollectedBytes(businesses, base, leaves, batches);
  }

  /** When the miner has all the txids, each token's list is exactly its filing. */
  lemma CollectedIsFiled(businesses: nat, base: seq<Hash>, leaves: seq<Hash>, batches: map<nat, seq<nat>>, ti: nat)
    requires businesses > 0 && Collected(businesses, base, leaves, batches) && multiset(base) == multiset(leaves)
    ensures Filed(businesses, leaves, ListOf(batches, ti), ti)
  {
    hide TokenOf, ListOf;
    assert FiledAmong(businesses, base, leaves, ListOf(batches, ti), ti);
    forall i | 0 <= i < |leaves|
      ensures leaves[i] in base
    {
      PermutationMember(base, leaves, leaves[i]);
    }
  }

  // ---- Agreement -----------------------------------------------------------------------------------

  /** `fragments` is off when the pipeline runs without a fragment store. */
  datatype Config = Config(miners: nat, subtrees: nat, hps: nat, businesses: nat, fragments: bool)

  datatype State = State(roots: seq<seq<Hash>>, disk: map<(nat, nat), (Data, Data)>,
                         frags: map<(nat, nat, nat), Data>, index: seq<Entries>)

  ghost predicate ValidConfig(cfg: Config) {
    cfg.hps >= 2 && cfg.businesses > 0
  }

  ghost predicate Shaped(cfg: Config, s: State) {
    && |s.roots| == cfg.miners && (forall m :: 0 <= m < cfg.miners ==> |s.roots[m]| == cfg.subtrees)
    && |s.index| == cfg.miners && (forall m :: 0 <= m < cfg.miners ==> NoEmptyLists(s.index[m]))
  }

  function PositionsOf(s: State, m: nat, si: nat, ti: nat): seq<nat>
    requires m < |s.index|
  {
    At(s.index[m], TokenName(ti), si)
  }

  /** data is a marshalled extraction of the listed leaves from the subtree with these leaves. */
  ghost predicate FragmentFor(hp: HashFn, hps: nat, si: nat, leaves: seq<Hash>, list: seq<nat>, data: Data)
    requires hps >= 2
  {
    exists store: seq<Hash>, order: seq<nat>, levels: seq<Level> ::
      && |leaves| == hps && IsStore(hp, leaves, store)
      && multiset(order) == multiset(list) && Ascending(order) && InSubtree(hps, order)
      && Extracted(hps, Log2(hps), si, Cached(leaves, store), order, levels)
      && data == FragmentBytes(levels)
  }

  ghost predicate Stored(hp: HashFn, cfg: Config, s: State, m: nat, si: nat, leaves: seq<Hash>)
    requires ValidConfig(cfg) && Shaped(cfg, s) && m < cfg.miners && si < cfg.subtrees
  {
    && |leaves| == cfg.hps && (m, si) in s.disk
    && BytesHashes(s.disk[(m, si)].0) == leaves
    && IsStore(hp, leaves, BytesHashes(s.disk[(m, si)].1))
    && s.roots[m][si] == Root(hp, leaves)
  }

  ghost predicate Indexed(cfg: Config, s: State, m: nat, si: nat, filed: seq<Hash>)
    requires ValidConfig(cfg) && Shaped(cfg, s) && m < cfg.miners
  {
    && |filed| == cfg.hps
    && (forall ti :: 0 <= ti < cfg.businesses ==> Filed(cfg.businesses, filed, PositionsOf(s, m, si, ti), ti))
    && (forall t :: At(s.index[m], t, si) != [] ==> ScanToken(t) < cfg.businesses && t == TokenName(ScanToken(t)))
  }

  ghost predicate Fragmented(hp: HashFn, cfg: Config, s: State, m: nat, si: nat, leaves: seq<Hash>)
    requires ValidConfig(cfg) && Shaped(cfg, s) && m < cfg.miners
  {
    forall ti :: 0 <= ti < cfg.businesses ==>
      if !cfg.fragments || PositionsOf(s, m, si, ti) == [] then (m, ti, si) !in s.frags
      else (m, ti, si) in s.frags && FragmentFor(hp, cfg.hps, si, leaves, PositionsOf(s, m, si, ti), s.frags[(m, ti, si)])
  }

  /**
    Subtree si of miner m agrees with itself: store, root and fragments are those of `leaves`, and positions
    are filed by the tokens of `filed` (the leaves when the subtree was indexed).
   */
  ghost predicate Coherent(hp: HashFn, cfg: Config, s: State, m: nat, si: nat, filed: seq<Hash>, leaves: seq<Hash>)
    requires ValidConfig(cfg) && Shaped(cfg, s) && m < cfg.miners && si < cfg.subtrees
  {
    Stored(hp, cfg, s, m, si, leaves) && Indexed(cfg, s, m, si, filed) && Fragmented(hp, cfg, s, m, si, leaves)
  }

  /** Nothing about subtree si of miner m differs between the two states. */
  ghost predicate SameAt(cfg: Config, a: State, b: State, m: nat, si: nat)
    requires Shaped(cfg, a) && Shaped(cfg, b) && m < cfg.miners
  {
    && (si < cfg.subtrees ==> a.roots[m][si] == b.roots[m][si])
    && ((m, si) in a.disk <==> (m, si) in b.disk)
    && ((m, si) in a.disk ==> a.disk[(m, si)] == b.disk[(m, si)])
    && (forall t :: At(a.index[m], t, si) == At(b.index[m], t, si))
    && (forall ti :: (m, ti, si) in a.frags <==> (m, ti, si) in b.frags)
    && (forall ti :: (m, ti, si) in a.frags ==> a.frags[(m, ti, si)] == b.frags[(m, ti, si)])
  }

  ghost predicate SameElsewhere(cfg: Config, a: State, b: State, m: nat, si: nat)
    requires Shaped(cfg, a) && Shaped(cfg, b)
  {
    forall m', si' :: 0 <= m' < cfg.miners && 0 <= si' && (m', si') != (m, si) ==> SameAt(cfg, a, b, m', si')
  }

  lemma CoherentFrame(hp: HashFn, cfg: Config, a: State, b: State, m: nat, si: nat, filed: seq<Hash>, leaves: seq<Hash>)
    requires ValidConfig(cfg) && Shaped(cfg, a) && Shaped(cfg, b) && m < cfg.miners && si < cfg.subtrees
    requires Coherent(hp, cfg, a, m, si, filed, leaves) && SameAt(cfg, a, b, m, si)
    ensures Coherent(hp, cfg, b, m, si, filed, leaves)
  {
    forall ti | 0 <= ti < cfg.businesses
      ensures PositionsOf(a, m, si, ti) == PositionsOf(b, m, si, ti)
    {}
  }

  // ---- Conservation --------------------------------------------------------------------------------

  /** Every position of a subtree is filed once, under the token its txid derived and no other. */
  lemma PositionsPartition(cfg: Config, s: State, m: nat, si: nat, filed: seq<Hash>, i: nat)
    requires ValidConfig(cfg) && Shaped(cfg, s) && m < cfg.miners && Indexed(cfg, s, m, si, filed) && i < cfg.hps
    ensures var own := TokenOf(cfg.businesses, filed[i]);
      && multiset(PositionsOf(s, m, si, own))[i] == 1
      && own == FirstEight(filed[i]) % cfg.businesses
      && forall ti :: 0 <= ti < cfg.businesses && ti != own ==> i !in PositionsOf(s, m, si, ti)
  {
    TokenBytes(cfg.businesses, filed[i]);
    hide FirstEight;
    var own := TokenOf(cfg.businesses, filed[i]);
    assert Filed(cfg.businesses, filed, PositionsOf(s, m, si, own), own);
    RepeatCount(PositionsOf(s, m, si, own), i);
    forall ti | 0 <= ti < cfg.businesses && ti != own
      ensures i !in PositionsOf(s, m, si, ti)
    {
      assert Filed(cfg.businesses, filed, PositionsOf(s, m, si, ti), ti);
    }
  }

  // ---- The coinbase swap ---------------------------------------------------------------------------

  /** leaves with the first occurrence of `from` replaced. */
  function ReplaceFirst(leaves: seq<Hash>, from: Hash, to: Hash): (r: seq<Hash>)
    ensures |r| == |leaves|
  {
    if leaves == [] then []
    else if leaves[0] == from then [to] + leaves[1..]
    else [leaves[0]] + ReplaceFirst(leaves[1..], from, to)
  }

  lemma {:induction false} ReplaceAt(leaves: seq<Hash>, from: Hash, to: Hash, j: nat)
    requires j < |leaves| && leaves[j] == from && forall i :: 0 <= i < j ==> leaves[i] != from
    ensures ReplaceFirst(leaves, from, to) == leaves[j := to]
  {
    if j == 0 {
      assert leaves[0 := to] == [to] + leaves[1..];
    } else {
      ReplaceAt(leaves[1..], from, to, j - 1);
      assert leaves[j := to] == [leaves[0]] + leaves[1..][j - 1 := to];
    }
  }

  lemma {:induction false} ReplaceNone(leaves: seq<Hash>, from: Hash, to: Hash)
    requires from !in leaves
    ensures ReplaceFirst(leaves, from, to) == leaves
  {
    if leaves != [] {
      ReplaceNone(leaves[1..], from, to);
      assert leaves == [leaves[0]] + leaves[1..];
    }
  }

  /** The search for the old coinbase, stopping at the first match. */
  method ReplaceCoinbase(leaves: seq<Hash>, from: Hash, to: Hash) returns (r: seq<Hash>, replaced: bool)
    ensures r == ReplaceFirst(leaves, from, to) && (replaced <==> from in leaves)
  {
    r, replaced := leaves, false;
    for i := 0 to |leaves|
      invariant r == leaves && !replaced
      invariant forall j :: 0 <= j < i ==> leaves[j] != from
    {
      if leaves[i] == from {
        r := r[i := to];
        replaced := true;
        ReplaceAt(leaves, from, to, i);
        break;
      }
    }
    if !replaced { ReplaceNone(leaves, from, to); }
  }

  /** In a subtree of distinct txids the swap changes exactly the leaf that held the old coinbase. */
  lemma SwapHitsOne(leaves: seq<Hash>, from: Hash, to: Hash, j: nat)
    requires NoRepeats(leaves) && j < |leaves| && leaves[j] == from
    ensures ReplaceFirst(leaves, from, to) == leaves[j := to]
  {
    ReplaceAt(leaves, from, to, j);
  }

  /**
    The index is not touched by the swap, so the coinbase stays filed under the token of the txid it replaced:
    every position is still filed under its own leaf's token exactly when the two derive the same token.
   */
  lemma SwapKeepsFiling(cfg: Config, s: State, m: nat, si: nat, leaves: seq<Hash>, from: Hash, to: Hash, j: nat)
    requires ValidConfig(cfg) && Shaped(cfg, s) && m < cfg.miners && Indexed(cfg, s, m, si, leaves)
    requires NoRepeats(leaves) && j < |leaves| && leaves[j] == from
    ensures Indexed(cfg, s, m, si, ReplaceFirst(leaves, from, to)) <==>
            TokenOf(cfg.businesses, to) == TokenOf(cfg.businesses, from)
  {
    SwapHitsOne(leaves, from, to, j);
    var after := leaves[j := to];
    var own := TokenOf(cfg.businesses, from);
    assert Filed(cfg.businesses, leaves, PositionsOf(s, m, si, own), own);
    assert j in PositionsOf(s, m, si, own);
    if TokenOf(cfg.businesses, to) == own {
      forall ti | 0 <= ti < cfg.businesses
        ensures Filed(cfg.businesses, after, PositionsOf(s, m, si, ti), ti)
      {
        assert Filed(cfg.businesses, leaves, PositionsOf(s, m, si, ti), ti);
      }
    } else {
      assert !Filed(cfg.businesses, after, PositionsOf(s, m, si, own), own);
    }
  }
}
