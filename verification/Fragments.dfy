/** Pre-computed fragments: extraction of one subtree's levels for a token, and assembly from stored fragments. */
module Fragments {
  import opened Arith
  import opened Hashes
  import opened Bytes
  import opened Bump
  import opened BumpCodec
  import opened FragmentCodec
  import opened Emit
  import opened Worker
  import opened Finish
  import opened Sorting
  import opened Jit

  // ---- Extraction ----------------------------------------------------------------------------------

  /** The plan of a single subtree: no top levels. */
  function SubtreePlan(hps: nat, height: nat, si: nat, c: Cached): Plan {
    Plan(hps, height, 0, map[si := c], [])
  }

  function Positions(hps: nat, si: nat, order: seq<nat>): (ps: seq<Pos>)
    ensures |ps| == |order|
  {
    seq(|order|, i requires 0 <= i < |order| => Pos(si, order[i], si * hps + order[i]))
  }

  ghost predicate InSubtree(hps: nat, order: seq<nat>) {
    forall i :: 0 <= i < |order| ==> order[i] < hps
  }

  ghost predicate Ascending(order: seq<nat>) {
    forall i, j :: 0 <= i < j < |order| ==> order[i] <= order[j]
  }

  lemma PositionsRun(hps: nat, height: nat, si: nat, c: Cached, order: seq<nat>)
    requires ValidCached(hps, height, c) && InSubtree(hps, order)
    ensures Run(SubtreePlan(hps, height, si, c), si, Positions(hps, si, order))
  {}

  /** Every level of the fragment is the emitted level, sorted. */
  ghost predicate Extracted(hps: nat, height: nat, si: nat, c: Cached, order: seq<nat>, levels: seq<Level>)
    requires ValidCached(hps, height, c) && InSubtree(hps, order)
  {
    var plan, ps := SubtreePlan(hps, height, si, c), Positions(hps, si, order);
    && |levels| == height
    && (forall k :: 0 <= k < height ==> AllReadable(plan, k, ps) && SortOf(Emitted(Local, plan, k, ps), levels[k]))
  }

  /** Adds missing levels and empties those the fragment uses. */
  method ClearLevels(ws: WorkerState, height: nat)
    modifies ws`levels
    ensures height <= |ws.levels|
    ensures forall k :: 0 <= k < height ==> ws.levels[k] == []
  {
    while |ws.levels| < height
    {
      ws.levels := ws.levels + [[]];
    }
    for k := 0 to height
      invariant height <= |ws.levels| && forall j :: 0 <= j < k ==> ws.levels[j] == []
    {
      ws.levels := ws.levels[k := []];
    }
  }

  method SortInts(xs: seq<nat>) returns (order: seq<nat>)
    ensures multiset(order) == multiset(xs) && Ascending(order)
  {
    order := Sort((x: nat) => x, xs);
  }

  lemma SortedInSubtree(hps: nat, xs: seq<nat>, order: seq<nat>)
    requires InSubtree(hps, xs) && multiset(order) == multiset(xs)
    ensures InSubtree(hps, order)
  {
    forall i | 0 <= i < |order|
      ensures order[i] < hps
    {
      assert order[i] in multiset(order);
      assert order[i] in xs;
    }
  }

  lemma PlanFacts(hps: nat, height: nat, si: nat, c: Cached, ps: seq<Pos>)
    requires Run(SubtreePlan(hps, height, si, c), si, ps)
    ensures ValidPlan(SubtreePlan(hps, height, si, c))
    ensures var plan := SubtreePlan(hps, height, si, c); plan.height == height && si in plan.subtrees && plan.subtrees[si] == c
  {}

  lemma GrownToLength(plan: Plan, ps: seq<Pos>, before: seq<Level>, after: seq<Level>, top: nat)
    requires ValidPlan(plan) && GrownTo(plan, ps, before, after, top)
    ensures |after| == |before|
  {}

  lemma ExtractedBy(hps: nat, height: nat, si: nat, c: Cached, order: seq<nat>,
                    before: seq<Level>, raw: seq<Level>, result: seq<Level>)
    requires ValidCached(hps, height, c) && InSubtree(hps, order)
    requires ValidPlan(SubtreePlan(hps, height, si, c))
    requires GrownTo(SubtreePlan(hps, height, si, c), Positions(hps, si, order), before, raw, height)
    requires |result| == height <= |raw| && (forall k :: 0 <= k < height ==> before[k] == [])
    requires forall k :: 0 <= k < height ==> SortOf(raw[k], result[k])
    ensures Extracted(hps, height, si, c, order, result)
  {
    var plan, ps := SubtreePlan(hps, height, si, c), Positions(hps, si, order);
    forall k | 0 <= k < height
      ensures AllReadable(plan, k, ps) && SortOf(Emitted(Local, plan, k, ps), result[k])
    {
      assert raw[k] == [] + Emitted(Local, plan, k, ps) == Emitted(Local, plan, k, ps);
    }
  }

  /** extractSubtreeFragment; `order` is the sorted copy of the local indices it works through. */
  method ExtractSubtreeFragment(leaves: seq<Hash>, store: seq<Hash>, localIdxs: seq<nat>, subtreeIdx: nat,
                                hashesPerSubtree: nat, subtreeHeight: nat, ws: WorkerState)
    returns (result: seq<Level>, ghost order: seq<nat>)
    requires ValidCached(hashesPerSubtree, subtreeHeight, Cached(leaves, store))
    requires InSubtree(hashesPerSubtree, localIdxs)
    modifies ws`levels, ws`bitset, ws.bitset
    ensures multiset(order) == multiset(localIdxs) && Ascending(order) && InSubtree(hashesPerSubtree, order)
    ensures Extracted(hashesPerSubtree, subtreeHeight, subtreeIdx, Cached(leaves, store), order, result)
    ensures ws.bitset == old(ws.bitset) || fresh(ws.bitset)
  {
    hide *;
    var c := Cached(leaves, store);
    var sortedIdxs := SortInts(localIdxs);
    order := sortedIdxs;
    SortedInSubtree(hashesPerSubtree, localIdxs, order);
    ClearLevels(ws, subtreeHeight);
    ghost var plan := SubtreePlan(hashesPerSubtree, subtreeHeight, subtreeIdx, c);
    var ps := Positions(hashesPerSubtree, subtreeIdx, sortedIdxs);
    PositionsRun(hashesPerSubtree, subtreeHeight, subtreeIdx, c, order);
    PlanFacts(hashesPerSubtree, subtreeHeight, subtreeIdx, c, ps);
    ghost var before := ws.levels;
    EmitSubtree(ws, plan, subtreeHeight, subtreeIdx, c, ps, false);
    ghost var raw := ws.levels;
    GrownToLength(plan, ps, before, raw, subtreeHeight);
    SortLevels(ws, subtreeHeight);
    result := ws.levels[..subtreeHeight];
    ExtractedBy(hashesPerSubtree, subtreeHeight, subtreeIdx, c, order, before, raw, result);
  }

  // ---- Assembly ------------------------------------------------------------------------------------

  /** Level k of all fragments, one after the other; levels past the subtree height are dropped. */
  function Joined(frags: seq<seq<Level>>, height: nat, k: nat): Level {
    if frags == [] then []
    else
      var last := frags[|frags| - 1];
      Joined(frags[..|frags| - 1], height, k) + (if k < |last| && k < height then last[k] else [])
  }

  ghost predicate AllParse(data: seq<Data>) {
    forall i :: 0 <= i < |data| ==> Parse(data[i]).Success?
  }

  ghost function Parsed(data: seq<Data>): seq<seq<Level>>
    requires AllParse(data)
  {
    seq(|data|, i requires 0 <= i < |data| => Parse(data[i]).value)
  }

  /** The txid entries of a level, as positions: a level-0 txid offset is its global index. */
  ghost function TxidPositions(hps: nat, lev: Level): seq<Pos>
    requires hps > 0
  {
    if lev == [] then []
    else
      var e := lev[|lev| - 1];
      TxidPositions(hps, lev[..|lev| - 1]) + (if e.txid then [Pos(Quot(e.offset, hps), Rem(e.offset, hps), e.offset)] else [])
  }

  /** Every txid entry falls in a subtree with a top-tree path; the source would index out of range otherwise. */
  ghost predicate TxidsInBlock(plan: Plan, lev: Level)
    requires plan.hps > 0
  {
    forall i :: 0 <= i < |lev| && lev[i].txid ==> Quot(lev[i].offset, plan.hps) < |plan.topProofs|
  }

  lemma {:induction false} TxidPositionsValid(plan: Plan, lev: Level)
    requires plan.hps > 0 && TxidsInBlock(plan, lev)
    ensures ValidPositions(plan, TxidPositions(plan.hps, lev))
  {
    hide Quot, Rem;
    if lev != [] {
      TxidPositionsValid(plan, lev[..|lev| - 1]);
      QuotRem(lev[|lev| - 1].offset, plan.hps);
    }
  }

  /** raw holds the fragments' levels joined, and the top levels of their txids. */
  ghost predicate RawFromFragments(plan: Plan, frags: seq<seq<Level>>, raw: Path) {
    && ValidPlan(plan)
    && |raw| == plan.height + plan.topHeight
    && (forall k :: 0 <= k < plan.height ==> raw[k] == Joined(frags, plan.height, k))
    && (forall k :: plan.height <= k < |raw| ==>
          AllReadable(plan, k, TxidPositions(plan.hps, Joined(frags, plan.height, 0))) &&
          raw[k] == Emitted(Local, plan, k, TxidPositions(plan.hps, Joined(frags, plan.height, 0))))
  }

  ghost predicate FragmentsJoined(plan: Plan, frags: seq<seq<Level>>, levels: seq<Level>, total: nat) {
    && total <= |levels|
    && (forall k :: 0 <= k < total ==> levels[k] == Joined(frags, plan.height, k))
  }

  lemma {:induction false} NothingAbove(frags: seq<seq<Level>>, height: nat, k: nat)
    requires k >= height
    ensures Joined(frags, height, k) == []
  {
    if frags != [] { NothingAbove(frags[..|frags| - 1], height, k); }
  }

  lemma JoinedSnoc(frags: seq<seq<Level>>, levels: seq<Level>, height: nat, k: nat)
    ensures Joined(frags + [levels], height, k) ==
            if k < |levels| && k < height then Joined(frags, height, k) + levels[k] else Joined(frags, height, k)
  {
    assert (frags + [levels])[..|frags|] == frags;
    assert Joined(frags, height, k) + [] == Joined(frags, height, k);
  }

  /** One fragment's levels appended to the worker's. */
  method AppendFragment(ws: WorkerState, plan: Plan, levels: seq<Level>, ghost frags: seq<seq<Level>>, total: nat)
    requires plan.height <= total && FragmentsJoined(plan, frags, ws.levels, total)
    modifies ws`levels
    ensures FragmentsJoined(plan, frags + [levels], ws.levels, total)
  {
    ghost var before := ws.levels;
    var k := 0;
    while k < |levels| && k < plan.height
      invariant k <= |levels| && k <= plan.height && |ws.levels| == |before|
      invariant forall j :: 0 <= j < k ==> ws.levels[j] == before[j] + levels[j]
      invariant forall j :: k <= j < |before| ==> ws.levels[j] == before[j]
    {
      ws.levels := ws.levels[k := ws.levels[k] + levels[k]];
      k := k + 1;
    }
    forall j | 0 <= j < total
      ensures ws.levels[j] == Joined(frags + [levels], plan.height, j)
    {
      JoinedSnoc(frags, levels, plan.height, j);
    }
  }

  lemma ParsedSnoc(data: seq<Data>, i: nat)
    requires i < |data| && AllParse(data[..i]) && Parse(data[i]).Success?
    ensures AllParse(data[..i + 1]) && Parsed(data[..i + 1]) == Parsed(data[..i]) + [Parse(data[i]).value]
  {
    hide Parse;
    var more := data[..i + 1];
    forall j | 0 <= j < |more|
      ensures Parse(more[j]).Success?
    {
      assert j < i ==> more[j] == data[..i][j];
    }
    assert forall j :: 0 <= j < i ==> data[..i + 1][j] == data[..i][j];
  }

  /** The load loop: parse and append, stopping at the first fragment that does not parse. */
  method LoadFragments(ws: WorkerState, plan: Plan, data: seq<Data>, total: nat) returns (ok: bool)
    requires plan.height <= total && FragmentsJoined(plan, [], ws.levels, total)
    modifies ws`levels
    ensures ok <==> AllParse(data)
    ensures ok ==> FragmentsJoined(plan, Parsed(data), ws.levels, total)
  {
    hide Parse, FragmentsJoined;
    var i := 0;
    assert AllParse(data[..0]) && Parsed(data[..0]) == [];
    while i < |data|
      invariant i <= |data| && AllParse(data[..i])
      invariant FragmentsJoined(plan, Parsed(data[..i]), ws.levels, total)
    {
      var levels := UnmarshalFragment(data[i]);
      if levels.Failure? {
        return false;
      }
      ParsedSnoc(data, i);
      AppendFragment(ws, plan, levels.value, Parsed(data[..i]), total);
      i := i + 1;
    }
    assert data[..i] == data;
    ok := true;
  }

  lemma TxidStart(plan: Plan, k: nat, txids: Level)
    requires ValidPlan(plan)
    ensures plan.hps > 0 && TxidPositions(plan.hps, txids[..0]) == []
    ensures AllReadable(plan, k, []) && Emitted(Local, plan, k, []) == [] && OffsetsSeen(k, [], {})
  {}

  /** The next entry either adds its position or is skipped. */
  lemma TxidSnoc(plan: Plan, k: nat, txids: Level, i: nat)
    requires ValidPlan(plan) && TxidsInBlock(plan, txids) && i < |txids|
    requires plan.height <= k < plan.height + plan.topHeight && AllReadable(plan, k, TxidPositions(plan.hps, txids[..i]))
    ensures plan.hps > 0
    ensures var p := Pos(Quot(txids[i].offset, plan.hps), Rem(txids[i].offset, plan.hps), txids[i].offset);
      if txids[i].txid then
        && TxidPositions(plan.hps, txids[..i + 1]) == TxidPositions(plan.hps, txids[..i]) + [p]
        && AllReadable(plan, k, TxidPositions(plan.hps, txids[..i]) + [p])
      else TxidPositions(plan.hps, txids[..i + 1]) == TxidPositions(plan.hps, txids[..i])
  {
    hide Quot, Rem;
    assert txids[..i + 1][..i] == txids[..i];
    QuotRem(txids[i].offset, plan.hps);
  }

  lemma TxidTop(plan: Plan, k: nat, done: seq<Pos>, p: Pos)
    requires AllReadable(plan, k, done + [p])
    ensures Readable(plan, k, p) && (done + [p])[..|done|] == done && (done + [p])[..|done| + 1] == done + [p]
    ensures (done + [p])[|done|] == p && AllReadable(plan, k, done)
  {
    assert (done + [p])[|done|] == p;
    assert forall i :: 0 <= i < |done| ==> (done + [p])[i] == done[i];
  }

  /** Top level j from the txid entries of level 0, in the order the fragments were joined. */
  method EmitTopFromTxids(ws: WorkerState, plan: Plan, j: nat)
    requires ValidPlan(plan) && j < plan.topHeight && plan.height + j < |ws.levels|
    requires TxidsInBlock(plan, ws.levels[0])
    modifies ws`levels
    ensures AllReadable(plan, plan.height + j, TxidPositions(plan.hps, old(ws.levels)[0]))
    ensures ws.levels ==
      Grown(old(ws.levels), plan.height + j, Emitted(Local, plan, plan.height + j, TxidPositions(plan.hps, old(ws.levels)[0])))
  {
    var blockLevel := plan.height + j;
    ghost var before := ws.levels;
    var txids := ws.levels[0];
    GrownNothing(before, blockLevel);
    var seen: set<nat> := {};
    TopStart(plan, blockLevel, []);
    TxidStart(plan, blockLevel, txids);
    hide *;
    var i := 0;
    while i < |txids|
      invariant i <= |txids| && AllReadable(plan, blockLevel, TxidPositions(plan.hps, txids[..i]))
      invariant OffsetsSeen(blockLevel, TxidPositions(plan.hps, txids[..i]), seen)
      invariant ws.levels == Grown(before, blockLevel, Emitted(Local, plan, blockLevel, TxidPositions(plan.hps, txids[..i])))
    {
      var e := txids[i];
      ghost var done := TxidPositions(plan.hps, txids[..i]);
      ghost var sofar := Emitted(Local, plan, blockLevel, done);
      TxidSnoc(plan, blockLevel, txids, i);
      i := i + 1;
      if !e.txid {
        continue;
      }
      var g := e.offset;
      var sibOff := Sib(Shr(g, blockLevel));
      ghost var p := Pos(Quot(g, plan.hps), Rem(g, plan.hps), g);
      TopStep(plan, blockLevel, done + [p], |done|, seen);
      TxidTop(plan, blockLevel, done, p);
      TopEntry(plan, j, p);
      OffsetsSeenSnoc(blockLevel, done, seen, p);
      if sibOff !in seen {
        seen := seen + {sibOff};
        var si := Quot(g, plan.hps);
        var tp := plan.topProofs[si];
        GrownOne(before, blockLevel, sofar, Entry(sibOff, tp[j], false));
        ws.Append(blockLevel, Entry(sibOff, tp[j], false));
      } else {
        SeenAgain(seen, sibOff, sofar);
      }
    }
    assert txids[..|txids|] == txids;
  }

  method EmitTopsFromTxids(ws: WorkerState, plan: Plan)
    requires ValidPlan(plan) && plan.height + plan.topHeight <= |ws.levels| && 1 <= plan.height
    requires TxidsInBlock(plan, ws.levels[0])
    modifies ws`levels
    ensures TopGrown(plan, TxidPositions(plan.hps, old(ws.levels)[0]), old(ws.levels), ws.levels, plan.height + plan.topHeight)
  {
    ghost var before := ws.levels;
    ghost var ps := TxidPositions(plan.hps, before[0]);
    for j := 0 to plan.topHeight
      invariant TopGrown(plan, ps, before, ws.levels, plan.height + j)
    {
      hide AllReadable;
      EmitTopFromTxids(ws, plan, j);
    }
  }

  /** The fragments' txids fall inside the block, once they are joined. */
  ghost predicate FragmentsInBlock(plan: Plan, data: seq<Data>)
    requires plan.hps > 0
  {
    AllParse(data) ==> TxidsInBlock(plan, Joined(Parsed(data), plan.height, 0))
  }

  ghost predicate AssembledFromFragments(plan: Plan, data: seq<Data>, blockHeight: nat, out: Path, bytes: Data) {
    && AllParse(data)
    && (exists raw :: RawFromFragments(plan, Parsed(data), raw) && Finished(raw, out))
    && bytes == BumpBytes(blockHeight, out)
  }

  lemma NothingJoined(plan: Plan, levels: seq<Level>, total: nat)
    requires total <= |levels| && forall k :: 0 <= k < total ==> levels[k] == []
    ensures FragmentsJoined(plan, [], levels, total)
  {}

  lemma JoinedFacts(plan: Plan, data: seq<Data>, levels: seq<Level>, total: nat)
    requires ValidPlan(plan) && FragmentsInBlock(plan, data) && AllParse(data)
    requires total == plan.height + plan.topHeight && FragmentsJoined(plan, Parsed(data), levels, total)
    ensures 1 <= plan.height && total <= |levels| && TxidsInBlock(plan, levels[0])
  {}

  lemma FragmentsAssembled(plan: Plan, frags: seq<seq<Level>>, mid: seq<Level>, levels: seq<Level>, total: nat)
    requires ValidPlan(plan) && 1 <= plan.height && total == plan.height + plan.topHeight
    requires FragmentsJoined(plan, frags, mid, total) && total <= |mid|
    requires TopGrown(plan, TxidPositions(plan.hps, mid[0]), mid, levels, total)
    ensures total <= |levels| && RawFromFragments(plan, frags, levels[..total])
  {
    forall k | plan.height <= k < total
      ensures levels[k] == Emitted(Local, plan, k, TxidPositions(plan.hps, mid[0]))
    {
      NothingAbove(frags, plan.height, k);
    }
  }

  lemma FragmentsDone(plan: Plan, data: seq<Data>, blockHeight: nat, raw: Path, out: Path, bytes: Data)
    requires AllParse(data) && RawFromFragments(plan, Parsed(data), raw) && Finished(raw, out)
    requires bytes == BumpBytes(blockHeight, out)
    ensures AssembledFromFragments(plan, data, blockHeight, out, bytes)
  {}

  /** assembleTokenBUMPFromFragments: it fails on no fragments, and on one that does not parse. */
  method AssembleTokenBumpFromFragments(blockHeight: nat, fragmentData: seq<Data>, plan: Plan, ws: WorkerState)
    returns (r: Result<Data>)
    requires ValidPlan(plan) && FragmentsInBlock(plan, fragmentData)
    modifies ws`levels, ws`outBuf
    ensures r.Success? <==> fragmentData != [] && AllParse(fragmentData)
    ensures r.Success? ==>
      && |ws.levels| >= plan.height + plan.topHeight
      && AssembledFromFragments(plan, fragmentData, blockHeight, ws.levels[..plan.height + plan.topHeight], r.value)
  {
    hide *;
    if |fragmentData| == 0 {
      return Failure("no fragments");
    }
    var total := plan.height + plan.topHeight;
    ws.Reset(total);
    NothingJoined(plan, ws.levels, total);
    var ok := LoadFragments(ws, plan, fragmentData, total);
    if !ok {
      return Failure("fragment unmarshal");
    }
    ghost var frags := Parsed(fragmentData);
    ghost var mid := ws.levels;
    JoinedFacts(plan, fragmentData, mid, total);
    EmitTopsFromTxids(ws, plan);
    FragmentsAssembled(plan, frags, mid, ws.levels, total);
    ghost var raw := ws.levels[..total];
    var out := FinishBump(ws, blockHeight, total);
    FragmentsDone(plan, fragmentData, blockHeight, raw, ws.levels[..total], out);
    r := Success(out);
  }
}
