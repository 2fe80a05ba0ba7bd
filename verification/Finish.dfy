/** The shared tail of every assembly: sort each level, prune top-down in place, serialize. */
module Finish {
  import opened Bytes
  import opened Bump
  import opened BumpCodec
  import opened Sorting
  import opened Worker

  // ---- Sorting -------------------------------------------------------------------------------------

  method SortLevels(ws: WorkerState, n: nat)
    requires n <= |ws.levels|
    modifies ws`levels
    ensures |ws.levels| == |old(ws.levels)|
    ensures forall h :: 0 <= h < n ==> SortOf(old(ws.levels)[h], ws.levels[h])
    ensures forall h :: n <= h < |ws.levels| ==> ws.levels[h] == old(ws.levels)[h]
  {
    for h := 0 to n
      invariant |ws.levels| == |old(ws.levels)|
      invariant forall j :: 0 <= j < h ==> SortOf(old(ws.levels)[j], ws.levels[j])
      invariant forall j :: h <= j < |ws.levels| ==> ws.levels[j] == old(ws.levels)[j]
    {
      var lev := ws.levels[h];
      if |lev| > 1 {
        lev := Sort((e: Entry) => e.offset, lev);
      }
      ws.levels := ws.levels[h := lev];
    }
  }

  // ---- Pruning -------------------------------------------------------------------------------------

  /** The entries whose two children are not both in `children`. */
  ghost function Without(lev: Level, children: set<nat>): Level {
    if lev == [] then []
    else
      var e := lev[|lev| - 1];
      Without(lev[..|lev| - 1], children) +
      (if 2 * e.offset in children && 2 * e.offset + 1 in children then [] else [e])
  }

  ghost predicate IsOffsets(lev: Level, s: set<nat>) {
    forall o :: o in s <==> Lists(lev, o)
  }

  method OffsetSet(lev: Level) returns (s: set<nat>)
    ensures IsOffsets(lev, s)
  {
    s := {};
    for i := 0 to |lev|
      invariant forall o :: o in s <==> exists j :: 0 <= j < i && lev[j].offset == o
    {
      s := s + {lev[i].offset};
    }
  }

  /**
    One level compacted in the array that holds it: `kept` never passes the entry being read. The offsets of
    dropped entries also leave the level's own set.
   */
  method CompactLevel(buf: array<Entry>, childSet: set<nat>, own: set<nat>) returns (kept: nat, own': set<nat>)
    modifies buf
    ensures kept <= buf.Length
    ensures buf[..kept] == Without(old(buf[..]), childSet)
  {
    kept, own' := 0, own;
    ghost var lev := buf[..];
    var i := 0;
    while i < buf.Length
      invariant kept <= i <= buf.Length
      invariant buf[i..] == lev[i..]
      invariant buf[..kept] == Without(lev[..i], childSet)
    {
      var e := buf[i];
      assert e == buf[i..][0] == lev[i];
      var childL := e.offset * 2;
      var childR := e.offset * 2 + 1;
      assert lev[..i + 1][..i] == lev[..i];
      if childL in childSet && childR in childSet {
        own' := own' - {e.offset};
      } else {
        buf[kept] := e;
        assert buf[..kept + 1] == buf[..kept] + [e];
        kept := kept + 1;
      }
      assert buf[i + 1..] == lev[i..][1..];
      i := i + 1;
    }
    assert lev[..i] == lev;
  }

  lemma {:induction false} WithoutIsKept(path: Path, h: nat, n: nat, children: set<nat>)
    requires 0 < h < |path| && n <= |path[h]| && IsOffsets(path[h - 1], children)
    ensures Without(path[h][..n], children) == Kept(path, h, n)
  {
    if n > 0 {
      assert path[h][..n][..n - 1] == path[h][..n - 1];
      WithoutIsKept(path, h, n - 1, children);
    }
  }

  lemma {:induction false} KeptLeaves(path: Path, n: nat)
    requires 0 < |path| && n <= |path[0]|
    ensures Kept(path, 0, n) == path[0][..n]
  {
    if n > 0 { KeptLeaves(path, n - 1); }
  }

  /** Levels from h up are pruned, those below are still whole. */
  ghost predicate PrunedDown(path: Path, levels: seq<Level>, h: nat) {
    && |path| <= |levels|
    && (forall j :: h <= j < |path| ==> levels[j] == Kept(path, j, |path[j]|))
    && (forall j :: 0 <= j < h && j < |path| ==> levels[j] == path[j])
  }

  /** The top-down pass. Each level is tested against the offsets of the level below as they were before the pass. */
  method PruneLevels(ws: WorkerState, total: nat)
    requires total <= |ws.levels|
    modifies ws`levels
    ensures |ws.levels| == |old(ws.levels)|
    ensures forall h :: 0 <= h < total ==>
      ws.levels[h] == Kept(old(ws.levels)[..total], h, |old(ws.levels)[h]|)
  {
    hide IsOffsets, Lists, Without;
    ghost var path := ws.levels[..total];
    var offsetSets: seq<set<nat>> := [];
    for h := 0 to total
      invariant ws.levels == old(ws.levels)
      invariant |offsetSets| == h && forall j :: 0 <= j < h ==> IsOffsets(path[j], offsetSets[j])
    {
      var m := OffsetSet(ws.levels[h]);
      offsetSets := offsetSets + [m];
    }
    if total == 0 { return; }
    var h := total - 1;
    while h > 0
      invariant h < total == |path| == |offsetSets| && |ws.levels| == |old(ws.levels)|
      invariant forall j :: 0 <= j <= h ==> IsOffsets(path[j], offsetSets[j])
      invariant PrunedDown(path, ws.levels, h + 1)
    {
      var childSet := offsetSets[h - 1];
      var lev := ws.levels[h];
      var buf := new Entry[|lev|](i requires 0 <= i < |lev| => lev[i]);
      assert buf[..] == lev == path[h];
      var kept, own := CompactLevel(buf, childSet, offsetSets[h]);
      assert path[h][..|path[h]|] == path[h];
      WithoutIsKept(path, h, |path[h]|, childSet);
      offsetSets := offsetSets[h := own];
      ws.levels := ws.levels[h := buf[..kept]];
      h := h - 1;
    }
    KeptLeaves(path, |path[0]|);
    assert path[0][..|path[0]|] == path[0];
  }

  // ---- Sorting and pruning commute -----------------------------------------------------------------

  lemma SortOfLists(a: Level, b: Level, o: nat)
    requires multiset(a) == multiset(b)
    ensures Lists(a, o) <==> Lists(b, o)
  {
    if Lists(a, o) {
      var i :| 0 <= i < |a| && a[i].offset == o;
      assert a[i] in multiset(a);
      assert a[i] in b;
    }
    if Lists(b, o) {
      var i :| 0 <= i < |b| && b[i].offset == o;
      assert b[i] in multiset(b);
      assert b[i] in a;
    }
  }

  lemma NoneKept(path: Path, h: nat, e: Entry)
    requires h < |path|
    ensures multiset(Kept(path, h, 0))[e] == multiset(path[h][..0])[e] == 0
  {}

  lemma CountSnoc(lev: Level, last: Entry, e: Entry)
    ensures multiset(lev + [last])[e] == multiset(lev)[e] + (if e == last then 1 else 0)
  {}

  /** One more entry, dropped or kept. */
  lemma CountStep(lev: Level, kept: Level, last: Entry, drop: bool, e: Entry, dropE: bool)
    requires multiset(kept)[e] == if dropE then 0 else multiset(lev)[e]
    requires e == last ==> drop == dropE
    ensures multiset(if drop then kept else kept + [last])[e] == if dropE then 0 else multiset(lev + [last])[e]
  {
    CountSnoc(lev, last, e);
    CountSnoc(kept, last, e);
  }

  lemma KeptStep(path: Path, h: nat, n: nat)
    requires h < |path| && 0 < n <= |path[h]|
    ensures path[h][..n] == path[h][..n - 1] + [path[h][n - 1]]
    ensures Kept(path, h, n) ==
      if Prunable(path, h, path[h][n - 1].offset) then Kept(path, h, n - 1) else Kept(path, h, n - 1) + [path[h][n - 1]]
  {
    hide Prunable;
    assert Kept(path, h, n - 1) + [] == Kept(path, h, n - 1);
  }

  lemma {:induction false} KeptCount(path: Path, h: nat, n: nat, e: Entry)
    requires h < |path| && n <= |path[h]|
    ensures multiset(Kept(path, h, n))[e] == if Prunable(path, h, e.offset) then 0 else multiset(path[h][..n])[e]
  {
    hide Kept, Prunable;
    if n == 0 {
      NoneKept(path, h, e);
    } else {
      var last := path[h][n - 1];
      KeptStep(path, h, n);
      KeptCount(path, h, n - 1, e);
      CountStep(path[h][..n - 1], Kept(path, h, n - 1), last, Prunable(path, h, last.offset), e, Prunable(path, h, e.offset));
    }
  }

  lemma {:induction false} KeptSorted(path: Path, h: nat, n: nat)
    requires h < |path| && n <= |path[h]| && Sorted(path[h])
    ensures Sorted(Kept(path, h, n))
    ensures forall i :: 0 <= i < |Kept(path, h, n)| ==> exists j :: 0 <= j < n && path[h][j] == Kept(path, h, n)[i]
  {
    if n > 0 { KeptSorted(path, h, n - 1); }
  }

  lemma SortedPrunable(raw: Path, sorted: Path, h: nat, o: nat)
    requires |raw| == |sorted| && h < |raw| && forall j :: 0 <= j < |raw| ==> SortOf(raw[j], sorted[j])
    ensures Prunable(raw, h, o) <==> Prunable(sorted, h, o)
  {
    if h > 0 {
      SortOfLists(raw[h - 1], sorted[h - 1], 2 * o);
      SortOfLists(raw[h - 1], sorted[h - 1], 2 * o + 1);
    }
  }

  lemma SortThenPrune(raw: Path, sorted: Path, h: nat)
    requires |raw| == |sorted| && h < |raw| && forall j :: 0 <= j < |raw| ==> SortOf(raw[j], sorted[j])
    ensures SortOf(Kept(raw, h, |raw[h]|), Kept(sorted, h, |sorted[h]|))
  {
    KeptSorted(sorted, h, |sorted[h]|);
    assert SortOf(raw[h], sorted[h]);
    forall e: Entry
      ensures multiset(Kept(raw, h, |raw[h]|))[e] == multiset(Kept(sorted, h, |sorted[h]|))[e]
    {
      KeptCount(raw, h, |raw[h]|, e);
      KeptCount(sorted, h, |sorted[h]|, e);
      SortedPrunable(raw, sorted, h, e.offset);
      assert raw[h][..|raw[h]|] == raw[h] && sorted[h][..|sorted[h]|] == sorted[h];
    }
  }

  // ---- The tail ------------------------------------------------------------------------------------

  method FinishBump(ws: WorkerState, blockHeight: nat, total: nat) returns (out: Data)
    requires total <= |ws.levels|
    modifies ws`levels, ws`outBuf
    ensures |ws.levels| >= total
    ensures Finished(old(ws.levels)[..total], ws.levels[..total])
    ensures out == ws.outBuf == BumpBytes(blockHeight, ws.levels[..total])
  {
    ghost var raw := ws.levels[..total];
    SortLevels(ws, total);
    ghost var sorted := ws.levels[..total];
    PruneLevels(ws, total);
    forall h | 0 <= h < total
      ensures SortOf(Kept(raw, h, |raw[h]|), ws.levels[..total][h])
    {
      SortThenPrune(raw, sorted, h);
    }
    out := SerializeBump(blockHeight, ws.levels[..total]);
    ws.outBuf := out;
  }
}
