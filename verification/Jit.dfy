/** The just-in-time assembly: positions sorted and cut into runs by subtree, then the shared tail. */
module Jit {
  import opened Arith
  import opened Hashes
  import opened Bytes
  import opened Bump
  import opened BumpCodec
  import opened Emit
  import opened Worker
  import opened Finish
  import opened Sorting

  ghost predicate ValidPositions(plan: Plan, ps: seq<Pos>) {
    forall i :: 0 <= i < |ps| ==> ValidPos(plan.hps, ps[i]) && ps[i].si < |plan.topProofs|
  }

  ghost predicate Ordered(ps: seq<Pos>) {
    forall i, j :: 0 <= i < j < |ps| ==> ps[i].g <= ps[j].g
  }

  /** The positions whose subtree was loaded; runs of the others are skipped at the subtree levels. */
  ghost function Loaded(plan: Plan, ps: seq<Pos>): seq<Pos> {
    if ps == [] then []
    else
      var p := ps[|ps| - 1];
      Loaded(plan, ps[..|ps| - 1]) + (if p.si in plan.subtrees then [p] else [])
  }

  lemma {:induction false} LoadedMember(plan: Plan, ps: seq<Pos>, p: Pos)
    ensures p in Loaded(plan, ps) <==> p in ps && p.si in plan.subtrees
  {
    if ps != [] {
      assert ps == ps[..|ps| - 1] + [ps[|ps| - 1]];
      LoadedMember(plan, ps[..|ps| - 1], p);
    }
  }

  lemma LoadedReadable(plan: Plan, ps: seq<Pos>, k: nat)
    requires ValidPositions(plan, ps) && k < plan.height
    ensures AllReadable(plan, k, Loaded(plan, ps))
  {
    forall i | 0 <= i < |Loaded(plan, ps)|
      ensures Readable(plan, k, Loaded(plan, ps)[i])
    {
      LoadedMember(plan, ps, Loaded(plan, ps)[i]);
    }
  }

  lemma {:induction false} LoadedRun(plan: Plan, a: seq<Pos>, run: seq<Pos>, si: nat)
    requires forall i :: 0 <= i < |run| ==> run[i].si == si
    ensures Loaded(plan, a + run) == if si in plan.subtrees then Loaded(plan, a) + run else Loaded(plan, a)
  {
    if run == [] {
      assert a + run == a;
      assert Loaded(plan, a) + run == Loaded(plan, a);
    } else {
      var init, last := run[..|run| - 1], run[|run| - 1];
      assert (a + run)[..|a + run| - 1] == a + init && (a + run)[|a + run| - 1] == last;
      LoadedRun(plan, a, init, si);
      assert run == init + [last];
      assert (Loaded(plan, a) + init) + [last] == Loaded(plan, a) + run;
    }
  }

  lemma {:induction false} LoadedAll(plan: Plan, ps: seq<Pos>)
    requires forall i :: 0 <= i < |ps| ==> ps[i].si in plan.subtrees
    ensures Loaded(plan, ps) == ps
  {
    if ps != [] {
      var init, last := ps[..|ps| - 1], ps[|ps| - 1];
      LoadedAll(plan, init);
      assert ps == init + [last];
    }
  }

  ghost predicate LevelReadable(plan: Plan, ps: seq<Pos>, k: nat) {
    AllReadable(plan, k, if k < plan.height then Loaded(plan, ps) else ps)
  }

  lemma LevelIsReadable(plan: Plan, ps: seq<Pos>, k: nat)
    requires ValidPlan(plan) && ValidPositions(plan, ps) && k < plan.height + plan.topHeight
    ensures LevelReadable(plan, ps, k)
  {
    if k < plan.height { LoadedReadable(plan, ps, k); }
  }

  /** What the loops leave at level k, before sorting. */
  ghost function RawLevel(plan: Plan, ps: seq<Pos>, k: nat): Level
    requires ValidPlan(plan) && LevelReadable(plan, ps, k)
  {
    Emitted(Local, plan, k, if k < plan.height then Loaded(plan, ps) else ps)
  }

  /** raw holds the unsorted levels of positions ps. */
  ghost predicate RawPath(plan: Plan, ps: seq<Pos>, raw: Path) {
    && ValidPlan(plan)
    && |raw| == plan.height + plan.topHeight
    && (forall k :: 0 <= k < |raw| ==> LevelReadable(plan, ps, k) && raw[k] == RawLevel(plan, ps, k))
  }

  // ---- Top levels ----------------------------------------------------------------------------------

  ghost predicate OffsetsSeen(k: nat, done: seq<Pos>, seen: set<nat>) {
    forall o :: o in seen <==> exists j :: 0 <= j < |done| && Sib(Shr(done[j].g, k)) == o
  }

  lemma OffsetsSeenSnoc(k: nat, done: seq<Pos>, seen: set<nat>, p: Pos)
    requires OffsetsSeen(k, done, seen)
    ensures OffsetsSeen(k, done + [p], seen + {Sib(Shr(p.g, k))})
  {
    hide Sib, Shr;
    assert (done + [p])[|done|] == p;
    assert forall j :: 0 <= j < |done| ==> (done + [p])[j] == done[j];
  }

  lemma StepHigh(keying: Keying, plan: Plan, k: nat, before: seq<Pos>, p: Pos)
    requires ValidPlan(plan) && Readable(plan, k, p) && k > 0
    ensures Step(keying, plan, k, before, p) ==
            if Seen(keying, plan.height, k, before, p) then [] else [SibEntry(plan, k, p)]
  {}

  /** One more position at a top level, in terms of the offsets met so far. */
  lemma TopStep(plan: Plan, k: nat, ps: seq<Pos>, i: nat, seen: set<nat>)
    requires ValidPlan(plan) && k >= plan.height && i < |ps| && AllReadable(plan, k, ps)
    requires OffsetsSeen(k, ps[..i], seen)
    ensures ps[..i + 1] == ps[..i] + [ps[i]]
    ensures AllReadable(plan, k, ps[..i]) && AllReadable(plan, k, ps[..i + 1]) && Readable(plan, k, ps[i])
    ensures Emitted(Local, plan, k, ps[..i + 1]) ==
            Emitted(Local, plan, k, ps[..i]) +
            (if Sib(Shr(ps[i].g, k)) in seen then [] else [SibEntry(plan, k, ps[i])])
  {
    hide Sib, Shr;
    assert ps[..i + 1] == ps[..i] + [ps[i]];
    assert Readable(plan, k, ps[i]);
    EmittedSnoc(Local, plan, k, ps[..i], ps[i]);
    assert Seen(Local, plan.height, k, ps[..i], ps[i]) <==> Sib(Shr(ps[i].g, k)) in seen by {
      if Seen(Local, plan.height, k, ps[..i], ps[i]) {
        var j :| 0 <= j < i && Key(Local, plan.height, k, ps[..i][j]) == Key(Local, plan.height, k, ps[i]);
        assert Sib(Shr(ps[..i][j].g, k)) == Sib(Shr(ps[i].g, k));
      }
      if Sib(Shr(ps[i].g, k)) in seen {
        var j :| 0 <= j < i && Sib(Shr(ps[..i][j].g, k)) == Sib(Shr(ps[i].g, k));
        assert Key(Local, plan.height, k, ps[..i][j]) == Key(Local, plan.height, k, ps[i]);
      }
    }
    StepHigh(Local, plan, k, ps[..i], ps[i]);
  }

  lemma TopEntry(plan: Plan, j: nat, p: Pos)
    requires ValidPlan(plan) && Readable(plan, plan.height + j, p)
    ensures p.si < |plan.topProofs| && j < |plan.topProofs[p.si]|
    ensures SibEntry(plan, plan.height + j, p) == Entry(Sib(Shr(p.g, plan.height + j)), plan.topProofs[p.si][j], false)
  {}

  lemma SeenAgain(seen: set<nat>, o: nat, sofar: Level)
    requires o in seen
    ensures seen + {o} == seen && sofar + [] == sofar
  {}

  lemma TopStart(plan: Plan, k: nat, ps: seq<Pos>)
    requires ValidPlan(plan)
    ensures AllReadable(plan, k, ps[..0]) && Emitted(Local, plan, k, ps[..0]) == [] && OffsetsSeen(k, ps[..0], {})
  {}

  /** Top level j: one sibling per offset, kept in a set; the first position to reach it supplies the hash. */
  method EmitTopLevel(ws: WorkerState, plan: Plan, ps: seq<Pos>, j: nat)
    requires ValidPlan(plan) && j < plan.topHeight && plan.height + j < |ws.levels|
    requires AllReadable(plan, plan.height + j, ps)
    modifies ws`levels
    ensures ws.levels == Grown(old(ws.levels), plan.height + j, Emitted(Local, plan, plan.height + j, ps))
  {
    var blockLevel := plan.height + j;
    hide Emitted, Grown, AllReadable;
    ghost var before := ws.levels;
    GrownNothing(before, blockLevel);
    var seen: set<nat> := {};
    TopStart(plan, blockLevel, ps);
    hide *;
    var i := 0;
    while i < |ps|
      invariant i <= |ps| && AllReadable(plan, blockLevel, ps[..i])
      invariant OffsetsSeen(blockLevel, ps[..i], seen)
      invariant ws.levels == Grown(before, blockLevel, Emitted(Local, plan, blockLevel, ps[..i]))
    {
      var g := ps[i].g;
      var sibOff := Sib(Shr(g, blockLevel));
      TopStep(plan, blockLevel, ps, i, seen);
      TopEntry(plan, j, ps[i]);
      ghost var sofar := Emitted(Local, plan, blockLevel, ps[..i]);
      OffsetsSeenSnoc(blockLevel, ps[..i], seen, ps[i]);
      if sibOff !in seen {
        seen := seen + {sibOff};
        var tp := plan.topProofs[ps[i].si];
        GrownOne(before, blockLevel, sofar, Entry(sibOff, tp[j], false));
        ws.Append(blockLevel, Entry(sibOff, tp[j], false));
      } else {
        SeenAgain(seen, sibOff, sofar);
      }
      i := i + 1;
    }
    assert ps[..|ps|] == ps;
  }

  /** Top levels height..top-1 have the positions' entries appended, the others are as before. */
  ghost predicate TopGrown(plan: Plan, ps: seq<Pos>, before: seq<Level>, after: seq<Level>, top: nat)
    requires ValidPlan(plan)
  {
    && |after| == |before| && plan.height <= top <= |before|
    && (forall k :: plan.height <= k < top ==> AllReadable(plan, k, ps) && after[k] == before[k] + Emitted(Local, plan, k, ps))
    && (forall k :: 0 <= k < |before| && !(plan.height <= k < top) ==> after[k] == before[k])
  }

  lemma TopReadable(plan: Plan, ps: seq<Pos>, k: nat)
    requires ValidPositions(plan, ps) && plan.height <= k < plan.height + plan.topHeight
    ensures AllReadable(plan, k, ps)
  {}

  method EmitTop(ws: WorkerState, plan: Plan, ps: seq<Pos>)
    requires ValidPlan(plan) && plan.height + plan.topHeight <= |ws.levels| && ValidPositions(plan, ps)
    modifies ws`levels
    ensures TopGrown(plan, ps, old(ws.levels), ws.levels, plan.height + plan.topHeight)
  {
    ghost var before := ws.levels;
    for j := 0 to plan.topHeight
      invariant TopGrown(plan, ps, before, ws.levels, plan.height + j)
    {
      TopReadable(plan, ps, plan.height + j);
      hide AllReadable;
      EmitTopLevel(ws, plan, ps, j);
    }
  }

  // ---- Runs ----------------------------------------------------------------------------------------

  /** Global order is subtree order. */
  lemma SubtreeOrder(hps: nat, p: Pos, q: Pos)
    requires ValidPos(hps, p) && ValidPos(hps, q) && p.g <= q.g
    ensures p.si <= q.si
  {
    if q.si < p.si { MulStep(q.si, p.si, hps); }
  }

  /** The subtree levels hold what the loaded positions emit, the top levels nothing yet. */
  ghost predicate RunsDone(plan: Plan, ps: seq<Pos>, levels: seq<Level>, total: nat)
    requires ValidPlan(plan)
  {
    && plan.height <= total <= |levels|
    && (forall k :: 0 <= k < plan.height ==>
          AllReadable(plan, k, Loaded(plan, ps)) && levels[k] == Emitted(Local, plan, k, Loaded(plan, ps)))
    && (forall k :: plan.height <= k < total ==> levels[k] == [])
  }

  lemma RunsApart(plan: Plan, done: seq<Pos>, run: seq<Pos>, si: nat, k: nat)
    requires k < plan.height
    requires forall i :: 0 <= i < |done| ==> done[i].si != si
    requires forall i :: 0 <= i < |run| ==> run[i].si == si
    ensures KeysApart(Local, plan.height, k, Loaded(plan, done), run)
  {
    forall i, j | 0 <= i < |Loaded(plan, done)| && 0 <= j < |run|
      ensures Key(Local, plan.height, k, Loaded(plan, done)[i]) != Key(Local, plan.height, k, run[j])
    {
      LoadedMember(plan, done, Loaded(plan, done)[i]);
    }
  }

  lemma RunAdded(plan: Plan, done: seq<Pos>, run: seq<Pos>, si: nat, before: seq<Level>, after: seq<Level>, total: nat)
    requires ValidPlan(plan) && RunsDone(plan, done, before, total)
    requires Run(plan, si, run) && GrownTo(plan, run, before, after, plan.height)
    requires forall i :: 0 <= i < |done| ==> done[i].si != si
    ensures RunsDone(plan, done + run, after, total)
  {
    LoadedRun(plan, done, run, si);
    forall k | 0 <= k < plan.height
      ensures AllReadable(plan, k, Loaded(plan, done + run))
      ensures after[k] == Emitted(Local, plan, k, Loaded(plan, done + run))
    {
      RunsApart(plan, done, run, si, k);
      EmittedAppend(Local, plan, k, Loaded(plan, done), run);
    }
  }

  lemma RunSkipped(plan: Plan, done: seq<Pos>, run: seq<Pos>, si: nat, levels: seq<Level>, total: nat)
    requires ValidPlan(plan) && RunsDone(plan, done, levels, total)
    requires forall i :: 0 <= i < |run| ==> run[i].si == si
    requires si !in plan.subtrees
    ensures RunsDone(plan, done + run, levels, total)
  {
    LoadedRun(plan, done, run, si);
  }

  /** Every earlier position lies in an earlier subtree. */
  ghost predicate CutAt(ps: seq<Pos>, start: nat) {
    start <= |ps| && forall i, j :: 0 <= i < start <= j < |ps| ==> ps[i].si < ps[j].si
  }

  method FindRunEnd(plan: Plan, ps: seq<Pos>, start: nat) returns (end: nat)
    requires ValidPositions(plan, ps) && Ordered(ps) && start < |ps| && CutAt(ps, start)
    ensures start < end <= |ps| && CutAt(ps, end)
    ensures forall i :: start <= i < end ==> ps[i].si == ps[start].si
  {
    var si := ps[start].si;
    end := start + 1;
    while end < |ps| && ps[end].si == si
      invariant start < end <= |ps|
      invariant forall i :: start <= i < end ==> ps[i].si == si
    {
      end := end + 1;
    }
    forall i, j | 0 <= i < end <= j < |ps|
      ensures ps[i].si < ps[j].si
    {
      if i >= start {
        SubtreeOrder(plan.hps, ps[start], ps[end]);
        if end < j { SubtreeOrder(plan.hps, ps[end], ps[j]); }
      }
    }
  }

  lemma RunFacts(plan: Plan, ps: seq<Pos>, start: nat, end: nat, total: nat, levels: seq<Level>)
    requires ValidPlan(plan) && ValidPositions(plan, ps) && start < end <= |ps| && CutAt(ps, start) && CutAt(ps, end)
    requires forall i :: start <= i < end ==> ps[i].si == ps[start].si
    requires RunsDone(plan, ps[..start], levels, total)
    ensures var si, run := ps[start].si, ps[start..end];
      && ps[..end] == ps[..start] + run && end <= |ps|
      && (forall i :: 0 <= i < |run| ==> run[i].si == si)
      && (forall i :: 0 <= i < |ps[..start]| ==> ps[..start][i].si != si)
      && (si in plan.subtrees ==> Run(plan, si, run)) && plan.height <= |levels|
  {
    var run := ps[start..end];
    assert forall i :: 0 <= i < |run| ==> run[i] == ps[start + i];
  }

  /** The subtree levels of every run, skipping subtrees that were not loaded. */
  method EmitRuns(ws: WorkerState, plan: Plan, ps: seq<Pos>, ghost total: nat)
    requires ValidPlan(plan) && ValidPositions(plan, ps) && Ordered(ps)
    requires RunsDone(plan, [], ws.levels, total)
    modifies ws`levels, ws`bitset, ws.bitset
    ensures RunsDone(plan, ps, ws.levels, total)
    ensures ws.bitset == old(ws.bitset) || fresh(ws.bitset)
  {
    assert ps[..0] == [];
    var start := 0;
    while start < |ps|
      invariant CutAt(ps, start) && RunsDone(plan, ps[..start], ws.levels, total)
      invariant ws.bitset == old(ws.bitset) || fresh(ws.bitset)
      decreases |ps| - start
    {
      var si := ps[start].si;
      var end := FindRunEnd(plan, ps, start);
      var run := ps[start..end];
      RunFacts(plan, ps, start, end, total, ws.levels);
      hide *;
      if si !in plan.subtrees {
        RunSkipped(plan, ps[..start], run, si, ws.levels, total);
        start := end;
        continue;
      }
      ghost var before := ws.levels;
      EmitSubtree(ws, plan, plan.height, si, plan.subtrees[si], run, true);
      RunAdded(plan, ps[..start], run, si, before, ws.levels, total);
      start := end;
    }
    assert ps[..|ps|] == ps;
  }

  // ---- The whole path ------------------------------------------------------------------------------

  lemma RawAssembled(plan: Plan, ps: seq<Pos>, mid: seq<Level>, levels: seq<Level>, total: nat)
    requires ValidPlan(plan) && ValidPositions(plan, ps) && total == plan.height + plan.topHeight
    requires RunsDone(plan, ps, mid, total) && TopGrown(plan, ps, mid, levels, total)
    ensures total <= |levels| && RawPath(plan, ps, levels[..total])
  {
    forall k | 0 <= k < total
      ensures LevelReadable(plan, ps, k) && levels[..total][k] == RawLevel(plan, ps, k)
    {
      LevelIsReadable(plan, ps, k);
    }
  }

  lemma SortedPositions(plan: Plan, ps: seq<Pos>, order: seq<Pos>)
    requires ValidPositions(plan, ps) && multiset(order) == multiset(ps)
    ensures ValidPositions(plan, order)
  {
    forall i | 0 <= i < |order|
      ensures ValidPos(plan.hps, order[i]) && order[i].si < |plan.topProofs|
    {
      assert order[i] in multiset(order);
      assert order[i] in ps;
    }
  }

  lemma EmptyRuns(plan: Plan, levels: seq<Level>, total: nat)
    requires ValidPlan(plan) && plan.height <= total <= |levels|
    requires forall k :: 0 <= k < total ==> levels[k] == []
    ensures RunsDone(plan, [], levels, total)
  {}

  /** The positions in ascending global order. */
  method SortPositions(positions: seq<Pos>) returns (ps: seq<Pos>)
    ensures multiset(ps) == multiset(positions) && Ordered(ps)
  {
    ps := Sort((p: Pos) => p.g, positions);
  }

  /** The finished levels and bytes of positions taken in the given order. */
  ghost predicate Assembled(plan: Plan, order: seq<Pos>, blockHeight: nat, out: Path, bytes: Data) {
    && (exists raw :: RawPath(plan, order, raw) && Finished(raw, out))
    && bytes == BumpBytes(blockHeight, out)
  }

  lemma RunsLength(plan: Plan, ps: seq<Pos>, levels: seq<Level>, total: nat)
    requires ValidPlan(plan) && RunsDone(plan, ps, levels, total)
    ensures total <= |levels|
  {}

  lemma AssembledBy(plan: Plan, order: seq<Pos>, blockHeight: nat, raw: Path, out: Path, bytes: Data)
    requires RawPath(plan, order, raw) && Finished(raw, out) && bytes == BumpBytes(blockHeight, out)
    ensures Assembled(plan, order, blockHeight, out, bytes)
  {}

  /**
    assembleTokenBUMPFast. The worker's old contents play no part in the result. The source reorders the
    caller's slice in place; `order` is that order.
   */
  method AssembleTokenBumpFast(blockHeight: nat, positions: seq<Pos>, plan: Plan, ws: WorkerState)
    returns (r: Result<Data>, ghost order: seq<Pos>)
    requires ValidPlan(plan) && ValidPositions(plan, positions)
    modifies ws`levels, ws`bitset, ws`outBuf, ws.bitset
    ensures r.Success? <==> positions != []
    ensures r.Success? ==>
      && multiset(order) == multiset(positions) && Ordered(order)
      && |ws.levels| >= plan.height + plan.topHeight
      && Assembled(plan, order, blockHeight, ws.levels[..plan.height + plan.topHeight], r.value)
    ensures ws.bitset == old(ws.bitset) || fresh(ws.bitset)
  {
    hide *;
    order := [];
    var n := |positions|;
    if n == 0 {
      return Failure("no positions"), order;
    }
    var total := plan.height + plan.topHeight;
    ws.Reset(total);
    var ps := SortPositions(positions);
    order := ps;
    SortedPositions(plan, positions, ps);
    EmptyRuns(plan, ws.levels, total);
    EmitRuns(ws, plan, ps, total);
    ghost var mid := ws.levels;
    RunsLength(plan, ps, mid, total);
    EmitTop(ws, plan, ps);
    RawAssembled(plan, ps, mid, ws.levels, total);
    ghost var raw := ws.levels[..total];
    var out := FinishBump(ws, blockHeight, total);
    AssembledBy(plan, ps, blockHeight, raw, ws.levels[..total], out);
    r := Success(out);
  }
}
