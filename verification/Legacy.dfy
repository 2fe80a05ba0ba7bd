/** The older assembly: level 0 deduplicated by the last pair, the other levels by a map from offset to entry. */
module Legacy {
  import opened Arith
  import opened Hashes
  import opened Tree
  import opened Bump
  import opened Emit
  import opened Canon
  import opened Jit
  import opened Validity
  import opened Sorting
  import opened Finish
  import opened Compound

  // ---- A map as a level ----------------------------------------------------------------------------

  /** m holds exactly the entries of lev, by offset. */
  ghost predicate Represents(m: map<nat, Entry>, lev: Level) {
    && (forall o :: o in m <==> Lists(lev, o))
    && (forall e :: e in lev ==> e.offset in m && m[e.offset] == e)
  }

  lemma RepresentsAdd(m: map<nat, Entry>, lev: Level, e: Entry)
    requires Represents(m, lev) && e.offset !in m
    ensures Represents(m[e.offset := e], lev + [e])
  {
    forall o
      ensures o in m[e.offset := e] <==> Lists(lev + [e], o)
    {
      if Lists(lev + [e], o) {
        var i :| 0 <= i < |lev + [e]| && (lev + [e])[i].offset == o;
        if i < |lev| { assert lev[i].offset == o; }
      }
      if Lists(lev, o) {
        var i :| 0 <= i < |lev| && lev[i].offset == o;
        assert (lev + [e])[i].offset == o;
      }
      assert (lev + [e])[|lev|] == e;
    }
    forall x | x in lev + [e]
      ensures x.offset in m[e.offset := e] && m[e.offset := e][x.offset] == x
    {
      assert x in lev || x == e;
    }
  }

  /** m is what the level-k map holds after positions ps. */
  ghost predicate LevelDone(plan: Plan, k: nat, ps: seq<Pos>, m: map<nat, Entry>)
    requires ValidPlan(plan)
  {
    AllReadable(plan, k, ps) && Represents(m, Emitted(Global, plan, k, ps))
  }

  ghost predicate LevelsRepresent(plan: Plan, ps: seq<Pos>, merged: seq<map<nat, Entry>>)
    requires ValidPlan(plan)
  {
    && |merged| == plan.height + plan.topHeight
    && (forall k :: 1 <= k < |merged| ==> LevelDone(plan, k, ps, merged[k]))
  }

  /** All positions readable at every level: their subtrees are loaded. */
  ghost predicate AllLoaded(plan: Plan, ps: seq<Pos>) {
    ValidPositions(plan, ps) && forall i :: 0 <= i < |ps| ==> ps[i].si in plan.subtrees
  }

  lemma LoadedAt(plan: Plan, ps: seq<Pos>, k: nat)
    requires ValidPlan(plan) && AllLoaded(plan, ps) && k < plan.height + plan.topHeight
    ensures AllReadable(plan, k, ps)
  {}

  // ---- Level 0 -------------------------------------------------------------------------------------

  /** In global order the pair of p was seen exactly when it is the pair of the position just before. */
  lemma LastPairSeen(plan: Plan, before: seq<Pos>, p: Pos)
    requires Ordered(before + [p]) && before != []
    ensures Seen(Global, plan.height, 0, before, p) <==> before[|before| - 1].g / 2 == p.g / 2
  {
    var all := before + [p];
    assert all[|before|] == p && all[|before| - 1] == before[|before| - 1];
    if before[|before| - 1].g / 2 == p.g / 2 {
      assert Key(Global, plan.height, 0, before[|before| - 1]) == Key(Global, plan.height, 0, p);
    }
    if Seen(Global, plan.height, 0, before, p) {
      var i :| 0 <= i < |before| && Key(Global, plan.height, 0, before[i]) == Key(Global, plan.height, 0, p);
      assert all[i] == before[i] && (i < |before| - 1 ==> all[i].g <= all[|before| - 1].g);
    }
  }

  lemma PrefixFacts(ps: seq<Pos>, i: nat)
    requires Ordered(ps) && i < |ps|
    ensures ps[..i + 1] == ps[..i] + [ps[i]] && Ordered(ps[..i] + [ps[i]])
    ensures i > 0 ==> ps[..i] != [] && ps[..i][|ps[..i]| - 1] == ps[i - 1]
  {}

  /** One more position at level 0, in terms of the last pair emitted (-1 before the first). */
  lemma LeafStep(plan: Plan, ps: seq<Pos>, i: nat, lastPair: int)
    requires ValidPlan(plan) && AllLoaded(plan, ps) && Ordered(ps) && i < |ps|
    requires lastPair == if i == 0 then -1 else ps[i - 1].g / 2
    ensures ValidPos(plan.hps, ps[i]) && ps[i].si in plan.subtrees && ValidCached(plan.hps, plan.height, plan.subtrees[ps[i].si])
    ensures AllReadable(plan, 0, ps[..i]) && AllReadable(plan, 0, ps[..i + 1]) && plan.height > 0
    ensures Emitted(Global, plan, 0, ps[..i + 1]) ==
            Emitted(Global, plan, 0, ps[..i]) +
            ([TxidEntry(plan, ps[i])] + (if ps[i].g / 2 == lastPair then [] else [Entry(Sib(ps[i].g), SubtreeSibling(plan.hps, plan.height, plan.subtrees[ps[i].si], 0, ps[i].li), false)]))
  {
    PrefixFacts(ps, i);
    if i > 0 { LastPairSeen(plan, ps[..i], ps[i]); }
    assert Readable(plan, 0, ps[i]);
    assert Shr(ps[i].g, 0) == ps[i].g;
    EmittedSnoc(Global, plan, 0, ps[..i], ps[i]);
    StepParts(Global, plan, 0, ps[..i], ps[i]);
  }

  method AppendLeaf(plan: Plan, sc: Cached, pos: Pos, level0: Level, lastPair: int, used: nat)
    returns (out: Level, pair: int, used': nat)
    requires ValidPlan(plan) && ValidPos(plan.hps, pos) && pos.si in plan.subtrees && sc == plan.subtrees[pos.si]
    requires ValidCached(plan.hps, plan.height, sc) && plan.height > 0
    ensures out == level0 + ([TxidEntry(plan, pos)] +
      (if pos.g / 2 == lastPair then [] else [Entry(Sib(pos.g), SubtreeSibling(plan.hps, plan.height, sc, 0, pos.li), false)]))
    ensures pair == pos.g / 2 && used' <= used + 2
  {
    var li, g := pos.li, pos.g;
    var nLeaves := |sc.leaves|;
    pair := g / 2;
    used' := used + 1;
    var t := Entry(g, sc.leaves[li], true);
    out := level0 + [t];
    if pair != lastPair {
      var sibLi := Sib(li);
      if sibLi >= nLeaves { sibLi := li; }
      used' := used' + 1;
      out := out + [Entry(Sib(g), sc.leaves[sibLi], false)];
    }
  }

  method BuildLeaves(plan: Plan, ps: seq<Pos>) returns (level0: Level, used: nat)
    requires ValidPlan(plan) && AllLoaded(plan, ps) && Ordered(ps)
    ensures AllReadable(plan, 0, ps) && level0 == Emitted(Global, plan, 0, ps)
    ensures used <= 2 * |ps|
  {
    level0, used := [], 0;
    var lastPair: int := -1;
    var i := 0;
    while i < |ps|
      invariant i <= |ps| && used <= 2 * i
      invariant lastPair == if i == 0 then -1 else ps[i - 1].g / 2
      invariant AllReadable(plan, 0, ps[..i]) && level0 == Emitted(Global, plan, 0, ps[..i])
    {
      LeafStep(plan, ps, i, lastPair);
      hide *;
      var pos := ps[i];
      var sc := plan.subtrees[pos.si];
      level0, lastPair, used := AppendLeaf(plan, sc, pos, level0, lastPair, used);
      i := i + 1;
    }
    assert ps[..|ps|] == ps;
  }

  // ---- Levels above --------------------------------------------------------------------------------

  lemma SibKey(plan: Plan, k: nat, a: Pos, b: Pos)
    requires k >= 1
    ensures Key(Global, plan.height, k, a) == Key(Global, plan.height, k, b) <==> Sib(Shr(a.g, k)) == Sib(Shr(b.g, k))
  {}

  lemma SeenSnoc(keying: Keying, height: nat, k: nat, init: seq<Pos>, last: Pos, p: Pos)
    ensures Seen(keying, height, k, init + [last], p) <==>
            Seen(keying, height, k, init, p) || Key(keying, height, k, last) == Key(keying, height, k, p)
  {
    hide Key;
    assert (init + [last])[|init|] == last;
    assert forall i :: 0 <= i < |init| ==> (init + [last])[i] == init[i];
  }

  lemma ListsSnoc(lev: Level, e: Entry, o: nat)
    ensures Lists(lev + [e], o) <==> Lists(lev, o) || e.offset == o
  {
    assert (lev + [e])[|lev|] == e;
    assert forall i :: 0 <= i < |lev| ==> (lev + [e])[i] == lev[i];
  }

  /** The map form asks whether the offset is listed; it is when an earlier position has the same key. */
  lemma {:induction false} GlobalSeen(plan: Plan, k: nat, before: seq<Pos>, p: Pos)
    requires ValidPlan(plan) && k >= 1 && AllReadable(plan, k, before)
    ensures Seen(Global, plan.height, k, before, p) <==> Lists(Emitted(Global, plan, k, before), Sib(Shr(p.g, k)))
  {
    hide Sib, Shr;
    if before != [] {
      var init, last := before[..|before| - 1], before[|before| - 1];
      assert before == init + [last] && Readable(plan, k, last);
      GlobalSeen(plan, k, init, p);
      GlobalSeen(plan, k, init, last);
      EmittedSnoc(Global, plan, k, init, last);
      StepHigh(Global, plan, k, init, last);
      SeenSnoc(Global, plan.height, k, init, last, p);
      ListsSnoc(Emitted(Global, plan, k, init), SibEntry(plan, k, last), Sib(Shr(p.g, k)));
      assert Emitted(Global, plan, k, init) + [] == Emitted(Global, plan, k, init);
      SibKey(plan, k, last, p);
    }
  }

  /** One more position at a level above the leaves, in terms of the offsets the level's map holds. */
  lemma NodeStep(plan: Plan, k: nat, ps: seq<Pos>, i: nat, m: map<nat, Entry>)
    requires ValidPlan(plan) && AllLoaded(plan, ps) && i < |ps| && 1 <= k < plan.height + plan.topHeight
    requires AllReadable(plan, k, ps[..i]) && Represents(m, Emitted(Global, plan, k, ps[..i]))
    ensures AllReadable(plan, k, ps[..i + 1]) && Readable(plan, k, ps[i])
    ensures var e := SibEntry(plan, k, ps[i]);
      && e.offset == Sib(Shr(ps[i].g, k))
      && Represents(if e.offset in m then m else m[e.offset := e], Emitted(Global, plan, k, ps[..i + 1]))
  {
    assert ps[..i + 1] == ps[..i] + [ps[i]];
    assert Readable(plan, k, ps[i]);
    EmittedSnoc(Global, plan, k, ps[..i], ps[i]);
    StepHigh(Global, plan, k, ps[..i], ps[i]);
    GlobalSeen(plan, k, ps[..i], ps[i]);
    var lev, e := Emitted(Global, plan, k, ps[..i]), SibEntry(plan, k, ps[i]);
    assert lev + [] == lev;
    if e.offset !in m { RepresentsAdd(m, lev, e); }
  }

  lemma NodeHash(plan: Plan, k: nat, p: Pos)
    requires ValidPlan(plan) && Readable(plan, k, p) && 1 <= k
    ensures k < plan.height ==>
      && p.si in plan.subtrees
      && var c := plan.subtrees[p.si];
         var at := LevelStart(plan.height, k) + Sib(Shr(p.li, k));
         && |c.leaves| == plan.hps && Sib(Shr(p.li, k)) < Pow2(plan.height - k)
         && 0 <= at < |c.store| && SibEntry(plan, k, p).hash == c.store[at]
    ensures k >= plan.height ==>
      && p.si < |plan.topProofs| && k - plan.height < |plan.topProofs[p.si]|
      && SibEntry(plan, k, p).hash == plan.topProofs[p.si][k - plan.height]
    ensures !SibEntry(plan, k, p).txid
  {
    hide Sib, Shr, LevelStart, Pow2;
    if k < plan.height { CellInRange(plan.hps, plan.height, k, p.li); }
  }

  /** The hash one position gives for its sibling at level k, and where the level starts in the store. */
  method SiblingHash(plan: Plan, p: Pos, k: nat, storeOff: nat, storeSize: nat) returns (h: Hash)
    requires ValidPlan(plan) && Readable(plan, k, p) && 1 <= k
    requires k < plan.height ==> storeOff == LevelStart(plan.height, k) && storeSize == Pow2(plan.height - k)
    ensures h == SibEntry(plan, k, p).hash
  {
    hide *;
    if k < plan.height {
      var sibPos: int := Sib(Shr(p.li, k));
      if sibPos >= storeSize { sibPos := storeSize - 1; }
      NodeHash(plan, k, p);
      var sc := plan.subtrees[p.si];
      h := sc.store[storeOff + sibPos];
    } else {
      NodeHash(plan, k, p);
      var tp := plan.topProofs[p.si];
      h := tp[k - plan.height];
    }
  }

  /** Levels 1..k-1 already include position i, levels from k on do not. */
  ghost predicate HalfDone(plan: Plan, ps: seq<Pos>, i: nat, k: nat, merged: seq<map<nat, Entry>>)
    requires ValidPlan(plan) && i < |ps|
  {
    && |merged| == plan.height + plan.topHeight
    && (forall j :: 1 <= j < k && j < |merged| ==> LevelDone(plan, j, ps[..i + 1], merged[j]))
    && (forall j :: 1 <= j && k <= j < |merged| ==> LevelDone(plan, j, ps[..i], merged[j]))
  }

  lemma HalfStart(plan: Plan, ps: seq<Pos>, i: nat, merged: seq<map<nat, Entry>>)
    requires ValidPlan(plan) && i < |ps| && LevelsRepresent(plan, ps[..i], merged)
    ensures |merged| == plan.height + plan.topHeight && HalfDone(plan, ps, i, 1, merged)
  {}

  lemma HalfEnd(plan: Plan, ps: seq<Pos>, i: nat, merged: seq<map<nat, Entry>>)
    requires ValidPlan(plan) && i < |ps| && HalfDone(plan, ps, i, |merged|, merged)
    ensures LevelsRepresent(plan, ps[..i + 1], merged)
  {}

  lemma HalfLevel(plan: Plan, ps: seq<Pos>, i: nat, k: nat, merged: seq<map<nat, Entry>>)
    requires ValidPlan(plan) && i < |ps| && HalfDone(plan, ps, i, k, merged) && 1 <= k < |merged|
    ensures |merged| == plan.height + plan.topHeight
    ensures AllReadable(plan, k, ps[..i]) && Represents(merged[k], Emitted(Global, plan, k, ps[..i]))
  {
    assert LevelDone(plan, k, ps[..i], merged[k]);
  }

  lemma HalfNext(plan: Plan, ps: seq<Pos>, i: nat, k: nat, merged: seq<map<nat, Entry>>, m: map<nat, Entry>)
    requires ValidPlan(plan) && i < |ps| && HalfDone(plan, ps, i, k, merged) && 1 <= k < |merged|
    requires AllReadable(plan, k, ps[..i + 1]) && Represents(m, Emitted(Global, plan, k, ps[..i + 1]))
    ensures HalfDone(plan, ps, i, k + 1, merged[k := m])
  {
    assert LevelDone(plan, k, ps[..i + 1], m);
    hide LevelDone;
  }

  lemma EntryParts(plan: Plan, k: nat, p: Pos, h: Hash)
    requires ValidPlan(plan) && Readable(plan, k, p) && h == SibEntry(plan, k, p).hash
    ensures SibEntry(plan, k, p) == Entry(Sib(Shr(p.g, k)), h, false)
  {}

  lemma StoreStart(plan: Plan)
    requires ValidPlan(plan)
    ensures plan.hps >= 1 && plan.height >= 1 && plan.height == Log2(plan.hps)
    ensures LevelStart(plan.height, 1) == 0 && Pow2(plan.height) / 2 == Pow2(plan.height - 1)
  {}

  lemma StoreNext(height: nat, k: nat)
    requires 1 <= k < height
    ensures 0 <= LevelStart(height, k)
    ensures LevelStart(height, k + 1) == LevelStart(height, k) + Pow2(height - k)
    ensures Pow2(height - k) / 2 == Pow2(height - (k + 1))
  {
    LevelStartNext(height, k);
  }

  /** The inner loops over the levels, for one position. */
  method MergePosition(plan: Plan, ps: seq<Pos>, i: nat, merged: seq<map<nat, Entry>>, used: nat)
    returns (out: seq<map<nat, Entry>>, used': nat)
    requires ValidPlan(plan) && AllLoaded(plan, ps) && i < |ps| && plan.height >= 1
    requires LevelsRepresent(plan, ps[..i], merged)
    ensures LevelsRepresent(plan, ps[..i + 1], out)
    ensures used' <= used + plan.height + plan.topHeight
  {
    hide *;
    var total := plan.height + plan.topHeight;
    var p := ps[i];
    out, used' := merged, used;
    HalfStart(plan, ps, i, merged);
    var pad := NextPowerOfTwo(plan.hps);
    var storeOff, storeSize := 0, pad / 2;
    StoreStart(plan);
    var k := 1;
    while k < total
      invariant 1 <= k <= total == |out| && used' <= used + k
      invariant HalfDone(plan, ps, i, k, out)
      invariant k < plan.height ==> storeOff == LevelStart(plan.height, k) && storeSize == Pow2(plan.height - k)
    {
      HalfLevel(plan, ps, i, k, out);
      NodeStep(plan, k, ps, i, out[k]);
      var sibOff := Sib(Shr(p.g, k));
      var m := out[k];
      if sibOff !in m {
        var h := SiblingHash(plan, p, k, storeOff, storeSize);
        used' := used' + 1;
        EntryParts(plan, k, p, h);
        m := m[sibOff := Entry(sibOff, h, false)];
      }
      HalfNext(plan, ps, i, k, out, m);
      out := out[k := m];
      if k < plan.height {
        StoreNext(plan.height, k);
        storeOff := storeOff + storeSize;
        storeSize := storeSize / 2;
      }
      k := k + 1;
    }
    HalfEnd(plan, ps, i, out);
  }

  lemma NoneMerged(plan: Plan, merged: seq<map<nat, Entry>>)
    requires ValidPlan(plan) && |merged| == plan.height + plan.topHeight
    requires forall k :: 0 <= k < |merged| ==> merged[k] == map[]
    ensures LevelsRepresent(plan, [], merged)
  {}

  method MergeLevels(plan: Plan, ps: seq<Pos>, used: nat) returns (merged: seq<map<nat, Entry>>, used': nat)
    requires ValidPlan(plan) && AllLoaded(plan, ps)
    ensures LevelsRepresent(plan, ps, merged)
    ensures used' <= used + |ps| * (plan.height + plan.topHeight)
  {
    var total := plan.height + plan.topHeight;
    merged := seq(total, _ => map[]);
    used' := used;
    StoreStart(plan);
    NoneMerged(plan, merged);
    assert ps[..0] == [];
    var i := 0;
    while i < |ps|
      invariant i <= |ps| && LevelsRepresent(plan, ps[..i], merged)
      invariant used' <= used + i * total
    {
      hide *;
      merged, used' := MergePosition(plan, ps, i, merged, used');
      NextMultiple(i, total);
      i := i + 1;
    }
    assert ps[..|ps|] == ps;
  }

  // ---- Pruning maps --------------------------------------------------------------------------------

  /** Whether a level-h node's two children are in the set that stands for level h - 1. */
  ghost predicate BothIn(below: set<nat>, o: nat) {
    2 * o in below && 2 * o + 1 in below
  }

  /** Deleting while ranging: keys come in any order. */
  method PruneMap(m: map<nat, Entry>, below: set<nat>) returns (out: map<nat, Entry>)
    ensures forall o :: o in out <==> o in m && !BothIn(below, o)
    ensures forall o :: o in out ==> out[o] == m[o]
  {
    out := m;
    var todo := m.Keys;
    while todo != {}
      invariant todo <= m.Keys
      invariant forall o :: o in out <==> o in m && (o in todo || !BothIn(below, o))
      invariant forall o :: o in out ==> out[o] == m[o]
      decreases todo
    {
      var offset :| offset in todo;
      todo := todo - {offset};
      var childL := offset * 2;
      var childR := offset * 2 + 1;
      if childL in below && childR in below {
        out := out - {offset};
      }
    }
  }

  /** The values of a map, in whatever order the range gives them. */
  method ValuesOf(m: map<nat, Entry>) returns (lev: Level)
    requires forall o :: o in m ==> m[o].offset == o
    ensures NoRepeats(lev) && forall e :: e in lev <==> e.offset in m && m[e.offset] == e
  {
    lev := [];
    var todo := m.Keys;
    while todo != {}
      invariant todo <= m.Keys && NoRepeats(lev)
      invariant forall e :: e in lev <==> e.offset in m && e.offset !in todo && m[e.offset] == e
      decreases todo
    {
      var o :| o in todo;
      NoRepeatsAppend(lev, [m[o]]);
      assert forall e :: e in lev + [m[o]] <==> e in lev || e == m[o];
      todo := todo - {o};
      lev := lev + [m[o]];
    }
  }

  lemma RepresentedOffsets(m: map<nat, Entry>, lev: Level, o: nat)
    requires Represents(m, lev) && o in m
    ensures m[o].offset == o && m[o] in lev
  {
    var i :| 0 <= i < |lev| && lev[i].offset == o;
    assert lev[i] in lev;
  }

  lemma ListedOf(lev: Level, e: Entry)
    requires e in lev
    ensures Lists(lev, e.offset)
  {
    var i :| 0 <= i < |lev| && lev[i] == e;
  }

  lemma {:induction false} GlobalNoRepeats(plan: Plan, k: nat, ps: seq<Pos>)
    requires ValidPlan(plan) && AllReadable(plan, k, ps) && k >= 1
    ensures NoRepeats(Emitted(Global, plan, k, ps))
  {
    if ps != [] {
      var init, p := ps[..|ps| - 1], ps[|ps| - 1];
      assert ps == init + [p] && Readable(plan, k, p);
      GlobalNoRepeats(plan, k, init);
      EmittedSnoc(Global, plan, k, init, p);
      StepHigh(Global, plan, k, init, p);
      GlobalSeen(plan, k, init, p);
      var lev, e := Emitted(Global, plan, k, init), SibEntry(plan, k, p);
      assert lev + [] == lev;
      if !Seen(Global, plan.height, k, init, p) {
        if e in lev { ListedOf(lev, e); }
        NoRepeatsAppend(lev, [e]);
      }
    }
  }

  // ---- The whole path ------------------------------------------------------------------------------

  /** The unsorted levels of the map form. */
  ghost predicate LegacyRaw(plan: Plan, ps: seq<Pos>, raw: Path) {
    && ValidPlan(plan)
    && |raw| == plan.height + plan.topHeight
    && (forall k :: 0 <= k < |raw| ==> AllReadable(plan, k, ps) && raw[k] == Emitted(Global, plan, k, ps))
  }

  ghost function LegacyLevels(plan: Plan, ps: seq<Pos>): (raw: Path)
    requires ValidPlan(plan) && AllLoaded(plan, ps)
    ensures LegacyRaw(plan, ps, raw)
  {
    seq(plan.height + plan.topHeight, k requires 0 <= k < plan.height + plan.topHeight =>
      LoadedAt(plan, ps, k); Emitted(Global, plan, k, ps))
  }

  /** The pruned values of a level are its kept entries. */
  lemma PrunedValues(raw: Path, h: nat, m: map<nat, Entry>, below: set<nat>, pm: map<nat, Entry>, lev: Level)
    requires 0 < h < |raw| && NoRepeats(raw[h]) && Represents(m, raw[h]) && IsOffsets(raw[h - 1], below)
    requires forall o :: o in pm <==> o in m && !BothIn(below, o)
    requires forall o :: o in pm ==> pm[o] == m[o]
    requires NoRepeats(lev) && forall e :: e in lev <==> e.offset in pm && pm[e.offset] == e
    ensures multiset(Kept(raw, h, |raw[h]|)) == multiset(lev)
  {
    var kept := Kept(raw, h, |raw[h]|);
    forall e: Entry
      ensures e in kept <==> e in lev
    {
      KeptEntry(raw, h, |raw[h]|, e);
      assert raw[h][..|raw[h]|] == raw[h];
      assert BothIn(below, e.offset) <==> Prunable(raw, h, e.offset);
      if e in lev { RepresentedOffsets(m, raw[h], e.offset); }
    }
    KeptNoRepeats(raw, h, |raw[h]|);
    SameEntriesSameMultiset(kept, lev);
  }

  lemma KeysAreOffsets(m: map<nat, Entry>, lev: Level)
    requires Represents(m, lev)
    ensures IsOffsets(lev, m.Keys)
  {}

  /** One level pruned against the one below, listed and sorted. */
  method FinishLevel(ghost raw: Path, ghost h: nat, m: map<nat, Entry>, below: set<nat>) returns (lev: Level)
    requires 0 < h < |raw| && NoRepeats(raw[h]) && Represents(m, raw[h]) && IsOffsets(raw[h - 1], below)
    ensures SortOf(Kept(raw, h, |raw[h]|), lev)
  {
    var pm := PruneMap(m, below);
    forall o | o in pm
      ensures pm[o].offset == o
    {
      RepresentedOffsets(m, raw[h], o);
    }
    var values := ValuesOf(pm);
    PrunedValues(raw, h, m, below, pm, values);
    lev := Sort((e: Entry) => e.offset, values);
  }

  lemma RawLevels(plan: Plan, ps: seq<Pos>, raw: Path, merged: seq<map<nat, Entry>>, h: nat)
    requires ValidPlan(plan) && LegacyRaw(plan, ps, raw) && LevelsRepresent(plan, ps, merged) && 1 <= h < |raw|
    ensures |merged| == |raw| && NoRepeats(raw[h]) && Represents(merged[h], raw[h])
  {
    GlobalNoRepeats(plan, h, ps);
    assert LevelDone(plan, h, ps, merged[h]);
  }

  lemma BelowOffsets(plan: Plan, ps: seq<Pos>, raw: Path, level0Set: set<nat>, merged: seq<map<nat, Entry>>, h: nat)
    requires ValidPlan(plan) && LegacyRaw(plan, ps, raw) && LevelsRepresent(plan, ps, merged)
    requires 1 <= h < |raw| == |merged| && IsOffsets(raw[0], level0Set)
    ensures IsOffsets(raw[h - 1], if h == 1 then level0Set else merged[h - 1].Keys)
  {
    if h > 1 {
      RawLevels(plan, ps, raw, merged, h - 1);
      KeysAreOffsets(merged[h - 1], raw[h - 1]);
    }
  }

  /** The levels finished so far, bottom up. */
  ghost predicate LegacyPrefix(raw: Path, out: Path) {
    |out| <= |raw| && forall h :: 0 <= h < |out| ==> SortOf(Kept(raw, h, |raw[h]|), out[h])
  }

  lemma PrefixNext(raw: Path, out: Path, lev: Level)
    requires LegacyPrefix(raw, out) && |out| < |raw| && SortOf(Kept(raw, |out|, |raw[|out|]|), lev)
    ensures LegacyPrefix(raw, out + [lev])
  {}

  lemma PrefixDone(raw: Path, out: Path)
    requires LegacyPrefix(raw, out) && |out| == |raw|
    ensures Finished(raw, out)
  {}

  /** Levels 1 and up, each pruned against the whole level below it. */
  method FinishLevels(ghost plan: Plan, ghost ps: seq<Pos>, ghost raw: Path, level0: Level, level0Set: set<nat>,
                      merged: seq<map<nat, Entry>>)
    returns (out: Path)
    requires ValidPlan(plan) && LegacyRaw(plan, ps, raw) && LevelsRepresent(plan, ps, merged)
    requires 1 <= |raw| == |merged| && IsOffsets(raw[0], level0Set) && LegacyPrefix(raw, [level0])
    ensures Finished(raw, out)
  {
    hide *;
    out := [level0];
    var h := 1;
    while h < |merged|
      invariant 1 <= h <= |merged| == |raw| && |out| == h
      invariant LegacyPrefix(raw, out)
    {
      RawLevels(plan, ps, raw, merged, h);
      BelowOffsets(plan, ps, raw, level0Set, merged, h);
      var lev := FinishLevel(raw, h, merged[h], if h == 1 then level0Set else merged[h - 1].Keys);
      PrefixNext(raw, out, lev);
      out := out + [lev];
      h := h + 1;
    }
    PrefixDone(raw, out);
  }

  method SortLevel(lev: Level) returns (sorted: Level)
    ensures SortOf(lev, sorted)
  {
    sorted := Sort((e: Entry) => e.offset, lev);
  }

  lemma LegacyDone(plan: Plan, ps: seq<Pos>, raw: Path, out: Path)
    requires LegacyRaw(plan, ps, raw) && Finished(raw, out)
    ensures exists raw :: LegacyRaw(plan, ps, raw) && Finished(raw, out)
  {}

  lemma SortedLoaded(plan: Plan, ps: seq<Pos>, order: seq<Pos>)
    requires AllLoaded(plan, ps) && multiset(order) == multiset(ps)
    ensures AllLoaded(plan, order) && |order| == |ps|
  {
    SortedPositions(plan, ps, order);
    assert |multiset(order)| == |multiset(ps)|;
    forall i | 0 <= i < |order|
      ensures order[i].si in plan.subtrees
    {
      PermutationMember(order, ps, order[i]);
    }
  }

  lemma PoolBound(n: nat, m: nat, total: nat, n0: nat, n1: nat)
    requires n == m && n0 <= 2 * m && n1 <= n0 + m * total
    ensures n1 <= n * (total + 2)
  {
    assert n * (total + 2) == n * total + 2 * n;
  }

  lemma LegacyFacts(plan: Plan, ps: seq<Pos>, raw: Path, leaves: Level, level0: Level, level0Set: set<nat>,
                    merged: seq<map<nat, Entry>>)
    requires ValidPlan(plan) && LegacyRaw(plan, ps, raw) && AllReadable(plan, 0, ps) && leaves == Emitted(Global, plan, 0, ps)
    requires SortOf(leaves, level0) && IsOffsets(level0, level0Set) && LevelsRepresent(plan, ps, merged)
    ensures 1 <= |raw| == |merged| == plan.height + plan.topHeight
    ensures IsOffsets(raw[0], level0Set) && LegacyPrefix(raw, [level0])
  {
    forall o
      ensures o in level0Set <==> Lists(raw[0], o)
    {
      SortOfLists(leaves, level0, o);
    }
    KeptLeaves(raw, |raw[0]|);
    assert raw[0][..|raw[0]|] == raw[0];
  }

  /**
    assembleTokenBUMP: every subtree asked about must be loaded. `used` counts the pool elements taken; the
    pool made for n * (totalHeight + 2) of them never grows.
   */
  method AssembleTokenBump(positions: seq<Pos>, plan: Plan) returns (r: Result<Path>, ghost order: seq<Pos>, used: nat)
    requires ValidPlan(plan) && AllLoaded(plan, positions)
    ensures r.Success? <==> positions != []
    ensures r.Success? ==>
      && multiset(order) == multiset(positions) && Ordered(order)
      && exists raw :: LegacyRaw(plan, order, raw) && Finished(raw, r.value)
    ensures used <= |positions| * (plan.height + plan.topHeight + 2)
  {
    hide *;
    order, used := [], 0;
    if |positions| == 0 {
      return Failure("no positions"), order, used;
    }
    var total := plan.height + plan.topHeight;
    var ps := SortPositions(positions);
    order := ps;
    SortedLoaded(plan, positions, ps);
    var leaves, n0 := BuildLeaves(plan, ps);
    var level0 := SortLevel(leaves);
    var level0Set := OffsetSet(level0);
    var merged, n1 := MergeLevels(plan, ps, n0);
    used := n1;
    PoolBound(|positions|, |ps|, total, n0, n1);
    ghost var raw := LegacyLevels(plan, ps);
    LegacyFacts(plan, ps, raw, leaves, level0, level0Set, merged);
    var out := FinishLevels(plan, ps, raw, level0, level0Set, merged);
    r := Success(out);
    LegacyDone(plan, order, raw, out);
  }

  // ---- The two dedups ------------------------------------------------------------------------------

  /** With a power-of-two subtree size the bitset form and the map form emit the same entries in the same order. */
  lemma {:induction false} DedupsAgree(plan: Plan, k: nat, ps: seq<Pos>)
    requires ValidPlan(plan) && IsPow2(plan.hps) && AllReadable(plan, k, ps)
    ensures Emitted(Local, plan, k, ps) == Emitted(Global, plan, k, ps)
  {
    if ps != [] {
      var init, p := ps[..|ps| - 1], ps[|ps| - 1];
      assert Readable(plan, k, p);
      DedupsAgree(plan, k, init);
      SeenMeansOwned(Local, plan, k, init, p);
      SeenMeansOwned(Global, plan, k, init, p);
    }
  }

  lemma NotPow2Bounds(hps: nat)
    requires hps >= 2 && !IsPow2(hps)
    ensures Log2(hps) >= 2 && Pow2(Log2(hps) - 1) < hps < Pow2(Log2(hps)) == 2 * Pow2(Log2(hps) - 1)
  {
    Log2Bounds(hps);
    assert Pow2(0) == 1;
    assert Pow2(1) == 2;
  }

  lemma AncestorsDiffer(hps: nat, h: nat, li: nat)
    requires h >= 2 && Pow2(h - 1) < hps < Pow2(h) && li == Pow2(h) - hps
    ensures Shr(0, h - 1) == Shr(li, h - 1) == 0
    ensures Shr(hps, h - 1) < Pow2(1) == 2
    ensures Shr(Pow2(h), h - 1) == 2
  {
    assert Pow2(1) == 2 && Pow2(0) == 1;
    ShrBound(0, h - 1, h - 1);
    ShrBound(li, h - 1, h - 1);
    ShrBound(hps, h, h - 1);
    ShrSplit(1, h, 0, h - 1);
    ShrBound(0, h - 1, h - 1);
    assert 1 * Pow2(h) + 0 == Pow2(h) && 1 * Pow2(1) == 2;
  }

  lemma TwoEmitted(plan: Plan, k: nat, p: Pos, q: Pos)
    requires ValidPlan(plan) && Readable(plan, k, p) && Readable(plan, k, q) && 1 <= k < plan.height
    requires p.si == q.si && Shr(p.li, k) == Shr(q.li, k) && Shr(p.g, k) != Shr(q.g, k)
    ensures AllReadable(plan, k, [p, q])
    ensures Emitted(Local, plan, k, [p, q]) != Emitted(Global, plan, k, [p, q])
  {
    hide Shr, Sib, SibEntry;
    assert AllReadable(plan, k, [p]);
    assert [] + [p] == [p] && [p] + [q] == [p, q];
    EmittedSnoc(Local, plan, k, [], p);
    EmittedSnoc(Local, plan, k, [p], q);
    EmittedSnoc(Global, plan, k, [], p);
    EmittedSnoc(Global, plan, k, [p], q);
    if Sib(Shr(p.g, k)) == Sib(Shr(q.g, k)) { SibInjective(Shr(p.g, k), Shr(q.g, k)); }
    assert Key(Local, plan.height, k, [p][0]) == Key(Local, plan.height, k, q);
    assert Key(Global, plan.height, k, [p][0]) != Key(Global, plan.height, k, q);
    assert !Seen(Global, plan.height, k, [p], q) && Seen(Local, plan.height, k, [p], q);
    StepHigh(Local, plan, k, [p], q);
    StepHigh(Global, plan, k, [p], q);
    StepHigh(Local, plan, k, [], p);
    StepHigh(Global, plan, k, [], p);
  }

  /** At every level, for all positions that can be read there. */
  ghost predicate DedupsAgreeOn(plan: Plan)
    requires ValidPlan(plan)
  {
    forall k: nat, ps: seq<Pos> :: AllReadable(plan, k, ps) ==>
      Emitted(Local, plan, k, ps) == Emitted(Global, plan, k, ps)
  }

  /** For any other size two positions of subtree 1 share a place in it but not a global ancestor. */
  lemma DedupsDiffer(plan: Plan)
    requires ValidPlan(plan) && !IsPow2(plan.hps) && 1 in plan.subtrees
    ensures !DedupsAgreeOn(plan)
  {
    var hps, h := plan.hps, plan.height;
    NotPow2Bounds(hps);
    var li := Pow2(h) - hps;
    var p, q := Pos(1, 0, hps), Pos(1, li, Pow2(h));
    assert Readable(plan, h - 1, p) && Readable(plan, h - 1, q);
    AncestorsDiffer(hps, h, li);
    TwoEmitted(plan, h - 1, p, q);
  }

  lemma PowerOfTwoAgrees(plan: Plan)
    requires ValidPlan(plan) && IsPow2(plan.hps)
    ensures DedupsAgreeOn(plan)
  {
    forall k: nat, ps: seq<Pos> | AllReadable(plan, k, ps)
      ensures Emitted(Local, plan, k, ps) == Emitted(Global, plan, k, ps)
    {
      DedupsAgree(plan, k, ps);
    }
  }

  /** For any plan with subtree 1 loaded the two dedups emit the same exactly when the size is a power of two. */
  lemma DedupsAgreeOnIff(plan: Plan)
    requires ValidPlan(plan) && 1 in plan.subtrees
    ensures DedupsAgreeOn(plan) <==> IsPow2(plan.hps)
  {
    if IsPow2(plan.hps) {
      PowerOfTwoAgrees(plan);
    } else {
      DedupsDiffer(plan);
    }
  }

  /** ... for every hash function and every sealed block with subtrees of this size, whatever is loaded. */
  ghost predicate DedupsAlwaysAgree(hps: nat) {
    forall hp: HashFn, subs: seq<seq<Hash>>, plan: Plan ::
      plan.hps == hps && Sealed(hp, subs, plan) ==> ValidPlan(plan) && DedupsAgreeOn(plan)
  }

  lemma TwinBlockDiffers(hps: nat)
    requires hps >= 2 && !IsPow2(hps)
    ensures !DedupsAlwaysAgree(hps)
  {
    var hp: HashFn := (l, r) => l;
    var leaf := Hash(seq(HASH_SIZE, _ => 0));
    var subs := [seq(hps, _ => leaf), seq(hps, _ => leaf)];
    var plan := TwoPlan(hp, subs);
    TwoPlanSealed(hp, subs);
    DedupsDiffer(plan);
    hide IsPow2, Sealed, ValidPlan, DedupsAgreeOn;
    assert plan.hps == hps;
  }

  /**
    Over sealed blocks: the dedups agree on all of them for a power of two, and for any other size they differ on
    every one whose subtree 1 is loaded, not only on some.
   */
  lemma DedupsAgreeIffPowerOfTwo(hps: nat)
    requires hps >= 2
    ensures DedupsAlwaysAgree(hps) <==> IsPow2(hps)
    ensures forall hp: HashFn, subs: seq<seq<Hash>>, plan: Plan ::
      !IsPow2(hps) && plan.hps == hps && Sealed(hp, subs, plan) && 1 in plan.subtrees ==>
        ValidPlan(plan) && !DedupsAgreeOn(plan)
  {
    forall hp: HashFn, subs: seq<seq<Hash>>, plan: Plan | plan.hps == hps && Sealed(hp, subs, plan)
      ensures ValidPlan(plan)
      ensures IsPow2(hps) ==> DedupsAgreeOn(plan)
      ensures !IsPow2(hps) && 1 in plan.subtrees ==> !DedupsAgreeOn(plan)
    {
      SealedFacts(hp, subs, plan);
      if IsPow2(hps) {
        PowerOfTwoAgrees(plan);
      } else if 1 in plan.subtrees {
        DedupsDiffer(plan);
      }
    }
    if !IsPow2(hps) {
      TwinBlockDiffers(hps);
    }
    hide IsPow2, Sealed, ValidPlan, DedupsAgreeOn;
  }

  // ---- The three assemblies ------------------------------------------------------------------------

  lemma LegacyCanonical(hp: HashFn, subs: seq<seq<Hash>>, plan: Plan, order: seq<Pos>, raw: Path)
    requires Genuine(hp, subs, plan) && AllLoaded(plan, order) && Increasing(order) && LegacyRaw(plan, order, raw)
    ensures var owned := Globals(order); CanonicalPath(hp, subs, plan.height, owned, owned, raw)
  {
    GenuineFacts(hp, subs, plan);
    GlobalsInBlock(hp, subs, plan, order);
    forall k | 0 <= k < |raw|
      ensures Canonical(hp, subs, plan.height, Globals(order), k, raw[k])
    {
      EmittedCanonical(Global, hp, subs, plan, k, order);
    }
  }

  /** The map form and the bitset form finish with the same entries, in the same order when no pair is wholly owned. */
  lemma LegacyAgrees(hp: HashFn, subs: seq<seq<Hash>>, plan: Plan, order: seq<Pos>,
                     rawL: Path, legacy: Path, rawJ: Path, jit: Path)
    requires Genuine(hp, subs, plan) && AllLoaded(plan, order) && Increasing(order)
    requires LegacyRaw(plan, order, rawL) && Finished(rawL, legacy)
    requires RawPath(plan, order, rawJ) && Finished(rawJ, jit)
    ensures |legacy| == |jit| && forall h :: 0 <= h < |jit| ==> multiset(legacy[h]) == multiset(jit[h])
    ensures NoPairWhollyOwned(Globals(order)) ==> legacy == jit
  {
    var owned := Globals(order);
    assert ValidPositions(plan, order);
    hide *;
    LoadedAll(plan, order);
    LegacyCanonical(hp, subs, plan, order, rawL);
    JitCanonical(hp, subs, plan, order, rawJ);
    AssembliesAgree(hp, subs, plan.height, owned, owned, rawL, legacy, rawJ, jit);
    if NoPairWhollyOwned(owned) {
      AssembliesIdentical(hp, subs, plan.height, owned, owned, rawL, legacy, rawJ, jit);
    }
  }
}
