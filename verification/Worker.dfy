/** Per-worker reusable buffers: entry levels, a word bitset, and the two dedup loops over one subtree. */
module Worker {
  import opened Arith
  import opened Hashes
  import opened Tree
  import opened Bump
  import opened Emit

  // ---- The bitset ------------------------------------------------------------------------------

  /** The shift count pos % 64, as the machine word sees it. */
  function Count(i: nat): bv6
    requires i < 64
  {
    i as bv6
  }

  function Bit(i: nat): bv64
    requires i < 64
  {
    (1 as bv64) << Count(i)
  }

  function Meet(w: bv64, mask: bv64): bv64 {
    w & mask
  }

  predicate Overlaps(w: bv64, mask: bv64) {
    Meet(w, mask) != 0
  }

  function Union(w: bv64, mask: bv64): bv64 {
    w | mask
  }

  predicate TestBit(w: bv64, i: nat)
    requires i < 64
  {
    Overlaps(w, Bit(i))
  }

  function WithBit(w: bv64, i: nat): bv64
    requires i < 64
  {
    Union(w, Bit(i))
  }

  ghost predicate Member(bits: seq<bv64>, pos: nat) {
    pos / 64 < |bits| && TestBit(bits[pos / 64], pos % 64)
  }

  lemma CountExact(i: nat)
    requires i < 64
    ensures Count(i) as nat == i
  {}

  lemma ShiftsDisjoint(a: bv6, b: bv6)
    requires a != b
    ensures ((1 as bv64) << a) & ((1 as bv64) << b) == 0
  {}

  lemma ShiftNonZero(a: bv6)
    ensures (1 as bv64) << a != 0
  {}

  lemma OrElsewhere(w: bv64, a: bv64, b: bv64)
    requires Meet(a, b) == 0
    ensures Meet(Union(w, a), b) == Meet(w, b)
  {}

  lemma OrHere(w: bv64, a: bv64)
    ensures Meet(Union(w, a), a) == a
  {}

  lemma UnionElsewhere(w: bv64, a: bv64, b: bv64)
    requires !Overlaps(a, b)
    ensures Overlaps(Union(w, a), b) <==> Overlaps(w, b)
  {
    hide Meet, Union;
    OrElsewhere(w, a, b);
  }

  lemma UnionHere(w: bv64, a: bv64)
    requires a != 0
    ensures Overlaps(Union(w, a), a)
  {
    hide Meet, Union;
    OrHere(w, a);
  }

  lemma BitsApart(i: nat, j: nat)
    requires i < 64 && j < 64 && i != j
    ensures !Overlaps(Bit(i), Bit(j))
  {
    hide Count;
    CountExact(i);
    CountExact(j);
    ShiftsDisjoint(Count(i), Count(j));
  }

  lemma BitNonZero(i: nat)
    requires i < 64
    ensures Bit(i) != 0
  {
    hide Count;
    ShiftNonZero(Count(i));
  }

  lemma TestHere(w: bv64, i: nat)
    requires i < 64
    ensures TestBit(WithBit(w, i), i)
  {
    BitNonZero(i);
    hide Bit, Overlaps, Union;
    UnionHere(w, Bit(i));
  }

  lemma TestElsewhere(w: bv64, i: nat, j: nat)
    requires i < 64 && j < 64 && i != j
    ensures TestBit(WithBit(w, i), j) <==> TestBit(w, j)
  {
    hide Bit, Overlaps, Union;
    BitsApart(i, j);
    UnionElsewhere(w, Bit(i), Bit(j));
  }

  lemma NoBit(i: nat)
    requires i < 64
    ensures !TestBit(0, i)
  {}

  lemma ZeroBits(bits: seq<bv64>, pos: nat)
    requires forall i :: 0 <= i < |bits| ==> bits[i] == 0
    ensures !Member(bits, pos)
  {
    hide TestBit;
    NoBit(pos % 64);
  }

  lemma SetBit(bits: seq<bv64>, pos: nat, q: nat)
    requires pos / 64 < |bits|
    ensures Member(bits[pos / 64 := WithBit(bits[pos / 64], pos % 64)], q) <==> Member(bits, q) || q == pos
  {
    hide TestBit, WithBit;
    if q / 64 == pos / 64 {
      if q % 64 == pos % 64 { TestHere(bits[pos / 64], pos % 64); }
      else { TestElsewhere(bits[pos / 64], pos % 64, q % 64); }
    }
  }

  lemma MemberWord(bits: seq<bv64>, pos: nat)
    requires pos / 64 < |bits|
    ensures Member(bits, pos) <==> TestBit(bits[pos / 64], pos % 64)
  {}

  /** bitsetCheck on the slice of the first `words` words: membership test with insertion. */
  method BitsetCheck(bs: array<bv64>, words: nat, pos: nat) returns (was: bool)
    requires words <= bs.Length && pos / 64 < words
    modifies bs
    ensures was == old(Member(bs[..words], pos))
    ensures forall q: nat :: Member(bs[..words], q) <==> old(Member(bs[..words], q)) || q == pos
  {
    hide *;
    var word, bit := pos / 64, pos % 64;
    ghost var before := bs[..words];
    MemberWord(before, pos);
    if TestBit(bs[word], bit) { return true; }
    bs[word] := WithBit(bs[word], bit);
    assert bs[..words] == before[word := WithBit(before[word], bit)];
    forall q: nat
      ensures Member(bs[..words], q) <==> Member(before, q) || q == pos
    {
      SetBit(before, pos, q);
    }
    was := false;
  }

  // ---- The worker ------------------------------------------------------------------------------

  class WorkerState {
    var levels: seq<Level>
    var bitset: array<bv64>
    var outBuf: seq<Byte>

    constructor (totalHeight: nat)
      ensures levels == seq(totalHeight, _ => [])
      ensures fresh(bitset) && outBuf == []
    {
      levels := seq(totalHeight, _ => []);
      bitset := new bv64[0];
      outBuf := [];
    }

    /** Clears the levels in use, adding the missing ones. */
    method Reset(totalHeight: nat)
      modifies this`levels, this`outBuf
      ensures |levels| == if totalHeight > |old(levels)| then totalHeight else |old(levels)|
      ensures forall k :: 0 <= k < totalHeight ==> levels[k] == []
      ensures forall k :: totalHeight <= k < |levels| ==> levels[k] == old(levels)[k]
      ensures outBuf == []
    {
      var i := 0;
      while i < totalHeight
        invariant i <= totalHeight
        invariant |levels| == if i > |old(levels)| then i else |old(levels)|
        invariant forall k :: 0 <= k < i ==> levels[k] == []
        invariant forall k :: i <= k < |levels| ==> levels[k] == old(levels)[k]
      {
        if i < |levels| {
          levels := levels[i := []];
        } else {
          levels := levels + [[]];
        }
        i := i + 1;
      }
      outBuf := [];
    }

    method Append(k: nat, e: Entry)
      requires k < |levels|
      modifies this`levels
      ensures levels == old(levels)[k := old(levels)[k] + [e]]
    {
      levels := levels[k := levels[k] + [e]];
    }

    /** At least nWords words, the first nWords of them zero; the backing array is reused when large enough. */
    method EnsureBitset(nWords: nat)
      modifies this`bitset, bitset
      ensures nWords <= bitset.Length
      ensures bitset == old(bitset) || fresh(bitset)
      ensures forall q: nat :: !Member(bitset[..nWords], q)
    {
      hide Member;
      var words := bitset;
      if words.Length < nWords {
        words := new bv64[nWords](_ => 0);
      } else {
        for i := 0 to nWords
          invariant words == bitset == old(bitset)
          invariant forall j :: 0 <= j < i ==> words[j] == 0
        {
          words[i] := 0;
        }
      }
      bitset := words;
      forall q: nat
        ensures !Member(bitset[..nWords], q)
      {
        ZeroBits(bitset[..nWords], q);
      }
    }
  }

  // ---- Dedup inside one subtree ----------------------------------------------------------------

  /** The bit a position uses at level k: its pair at level 0, its ancestor's sibling above. */
  function Place(k: nat, li: nat): nat {
    if k == 0 then li / 2 else Sib(Shr(li, k))
  }

  ghost predicate Visited(k: nat, done: seq<Pos>, q: nat) {
    exists j :: 0 <= j < |done| && Place(k, done[j].li) == q
  }

  ghost predicate Marked(bits: seq<bv64>, k: nat, done: seq<Pos>) {
    forall q: nat :: Member(bits, q) <==> Visited(k, done, q)
  }

  lemma VisitedSnoc(k: nat, done: seq<Pos>, p: Pos, q: nat)
    ensures Visited(k, done + [p], q) <==> Visited(k, done, q) || Place(k, p.li) == q
  {
    hide Place;
    assert (done + [p])[|done|] == p;
    assert forall j :: 0 <= j < |done| ==> (done + [p])[j] == done[j];
  }

  lemma MarkedSnoc(before: seq<bv64>, after: seq<bv64>, k: nat, done: seq<Pos>, p: Pos)
    requires Marked(before, k, done)
    requires forall q: nat :: Member(after, q) <==> Member(before, q) || q == Place(k, p.li)
    ensures Marked(after, k, done + [p])
  {
    hide Place, Member, Visited;
    forall q: nat
      ensures Member(after, q) <==> Visited(k, done + [p], q)
    {
      VisitedSnoc(k, done, p, q);
    }
  }

  lemma VisitedIsSeen(height: nat, k: nat, done: seq<Pos>, p: Pos)
    requires k < height && forall j :: 0 <= j < |done| ==> done[j].si == p.si
    ensures Visited(k, done, Place(k, p.li)) <==> Seen(Local, height, k, done, p)
  {
    hide Sib, Shr;
    if Visited(k, done, Place(k, p.li)) {
      var j :| 0 <= j < |done| && Place(k, done[j].li) == Place(k, p.li);
      assert Key(Local, height, k, done[j]) == Key(Local, height, k, p);
    }
    if Seen(Local, height, k, done, p) {
      var j :| 0 <= j < |done| && Key(Local, height, k, done[j]) == Key(Local, height, k, p);
      assert Place(k, done[j].li) == Place(k, p.li);
    }
  }

  /** A run: positions of one subtree, which the plan holds. */
  ghost predicate Run(plan: Plan, si: nat, ps: seq<Pos>) {
    && ValidPlan(plan) && si in plan.subtrees
    && forall i :: 0 <= i < |ps| ==> ps[i].si == si && ValidPos(plan.hps, ps[i])
  }

  lemma RunReadable(plan: Plan, si: nat, ps: seq<Pos>, k: nat)
    requires Run(plan, si, ps) && k < plan.height
    ensures AllReadable(plan, k, ps)
  {}

  /** Words for n bits: (n + 63) / 64. */
  function Words(n: nat): nat {
    (n + 63) / 64
  }

  lemma WordsCover(places: nat, place: nat)
    requires place < places
    ensures place / 64 < Words(places)
  {}

  lemma PairInRange(hps: nat, li: nat)
    requires hps >= 2 && li < hps
    ensures li / 2 < Pow2(Log2(hps)) / 2
  {
    Log2Bounds(hps);
  }

  /** levels with more entries appended at level k. */
  function Grown(levels: seq<Level>, k: nat, more: Level): seq<Level>
    requires k < |levels|
  {
    levels[k := levels[k] + more]
  }

  lemma GrownNothing(levels: seq<Level>, k: nat)
    requires k < |levels|
    ensures Grown(levels, k, []) == levels
  {
    assert levels[k] + [] == levels[k];
  }

  lemma GrownOne(levels: seq<Level>, k: nat, more: Level, e: Entry)
    requires k < |levels|
    ensures |Grown(levels, k, more)| == |levels|
    ensures var l := Grown(levels, k, more); l[k := l[k] + [e]] == Grown(levels, k, more + [e])
  {
    assert (levels[k] + more) + [e] == levels[k] + (more + [e]);
  }

  /** The sibling entry of p inside subtree c, as the loops read it from leaves and store. */
  ghost function LocalSibling(plan: Plan, c: Cached, k: nat, p: Pos): Entry
    requires ValidCached(plan.hps, plan.height, c) && k < plan.height && ValidPos(plan.hps, p)
  {
    Entry(Sib(Shr(p.g, k)), SubtreeSibling(plan.hps, plan.height, c, k, p.li), false)
  }

  /** One more position of a run, in terms of the bitset's view of the ones before it. */
  lemma RunStep(plan: Plan, si: nat, c: Cached, k: nat, ps: seq<Pos>, i: nat)
    requires Run(plan, si, ps) && c == plan.subtrees[si] && k < plan.height && i < |ps|
    ensures ps[..i + 1] == ps[..i] + [ps[i]]
    ensures AllReadable(plan, k, ps[..i]) && AllReadable(plan, k, ps[..i + 1])
    ensures ValidCached(plan.hps, plan.height, c) && ValidPos(plan.hps, ps[i])
    ensures Emitted(Local, plan, k, ps[..i + 1]) ==
            Emitted(Local, plan, k, ps[..i]) +
            ((if k == 0 then [Entry(ps[i].g, c.leaves[ps[i].li], true)] else []) +
             (if Visited(k, ps[..i], Place(k, ps[i].li)) then [] else [LocalSibling(plan, c, k, ps[i])]))
  {
    assert ps[..i + 1] == ps[..i] + [ps[i]];
    assert Run(plan, si, ps[..i]) && Run(plan, si, ps[..i + 1]);
    RunReadable(plan, si, ps[..i], k);
    RunReadable(plan, si, ps[..i + 1], k);
    RunReadable(plan, si, [ps[i]], k);
    assert Readable(plan, k, [ps[i]][0]);
    VisitedIsSeen(plan.height, k, ps[..i], ps[i]);
    hide Emitted, Seen, Visited, Place, SubtreeSibling, Run, AllReadable;
    EmittedSnoc(Local, plan, k, ps[..i], ps[i]);
  }

  lemma RunStart(plan: Plan, si: nat, k: nat, ps: seq<Pos>, bits: seq<bv64>)
    requires Run(plan, si, ps) && k < plan.height && forall q: nat :: !Member(bits, q)
    ensures AllReadable(plan, k, ps[..0]) && Emitted(Local, plan, k, ps[..0]) == [] && Marked(bits, k, ps[..0])
  {}

  lemma MarkedMember(bits: seq<bv64>, k: nat, done: seq<Pos>, q: nat)
    requires Marked(bits, k, done)
    ensures Member(bits, q) <==> Visited(k, done, q)
  {}

  lemma LeafAppended(sofar: Level, t: Entry, more: Level)
    ensures |more| == 1 ==> (sofar + [t]) + [more[0]] == sofar + ([t] + more)
    ensures more == [] ==> sofar + [t] == sofar + ([t] + more)
  {}

  lemma LeafFacts(plan: Plan, si: nat, c: Cached, ps: seq<Pos>, i: nat, words: nat)
    requires Run(plan, si, ps) && c == plan.subtrees[si] && i < |ps| && words == Words(Pow2(plan.height) / 2)
    ensures plan.height > 0 && ps[i].li < plan.hps && |c.leaves| == plan.hps
    ensures ps[i].li / 2 == Place(0, ps[i].li) && ps[i].li / 2 / 64 < words
    ensures ValidCached(plan.hps, plan.height, c) && ValidPos(plan.hps, ps[i])
    ensures LocalSibling(plan, c, 0, ps[i]) ==
            Entry(Sib(ps[i].g), c.leaves[if Sib(ps[i].li) >= |c.leaves| then ps[i].li else Sib(ps[i].li)], false)
  {
    PairInRange(plan.hps, ps[i].li);
    WordsCover(Pow2(plan.height) / 2, ps[i].li / 2);
    assert Shr(ps[i].g, 0) == ps[i].g;
  }

  /** The loop body of EmitLeaves. */
  method EmitLeaf(ws: WorkerState, ghost plan: Plan, ghost si: nat, c: Cached, ps: seq<Pos>, words: nat,
                  bs: array<bv64>, i: nat, ghost before: seq<Level>)
    requires Run(plan, si, ps) && c == plan.subtrees[si] && words == Words(Pow2(plan.height) / 2)
    requires words <= bs.Length && i < |ps| && AllReadable(plan, 0, ps[..i])
    requires |before| > 0 && ws.levels == Grown(before, 0, Emitted(Local, plan, 0, ps[..i]))
    requires Marked(bs[..words], 0, ps[..i])
    modifies ws`levels, bs
    ensures AllReadable(plan, 0, ps[..i + 1])
    ensures ws.levels == Grown(before, 0, Emitted(Local, plan, 0, ps[..i + 1]))
    ensures Marked(bs[..words], 0, ps[..i + 1])
  {
    LeafFacts(plan, si, c, ps, i, words);
    hide *;
    ghost var sofar := Emitted(Local, plan, 0, ps[..i]);
    var p := ps[i];
    var t := Entry(p.g, c.leaves[p.li], true);
    RunStep(plan, si, c, 0, ps, i);
    GrownOne(before, 0, sofar, t);
    ws.Append(0, t);

    ghost var bits := bs[..words];
    var seen := BitsetCheck(bs, words, p.li / 2);
    MarkedSnoc(bits, bs[..words], 0, ps[..i], p);
    MarkedMember(bits, 0, ps[..i], Place(0, p.li));
    if !seen {
      var sibLi := Sib(p.li);
      if sibLi >= |c.leaves| { sibLi := p.li; }
      var s := Entry(Sib(p.g), c.leaves[sibLi], false);
      GrownOne(before, 0, sofar + [t], s);
      ws.Append(0, s);
      LeafAppended(sofar, t, [s]);
    } else {
      LeafAppended(sofar, t, []);
    }
  }

  /** Level 0 of one subtree: a txid per position, and its sibling once per pair. */
  method EmitLeaves(ws: WorkerState, ghost plan: Plan, ghost si: nat, c: Cached, ps: seq<Pos>, words: nat)
    requires |ws.levels| > 0
    requires Run(plan, si, ps) && c == plan.subtrees[si] && words == Words(Pow2(plan.height) / 2)
    modifies ws`levels, ws`bitset, ws.bitset
    ensures AllReadable(plan, 0, ps)
    ensures ws.levels == Grown(old(ws.levels), 0, Emitted(Local, plan, 0, ps))
    ensures ws.bitset == old(ws.bitset) || fresh(ws.bitset)
  {
    ws.EnsureBitset(words);
    var bs := ws.bitset;
    ghost var before := ws.levels;
    RunStart(plan, si, 0, ps, bs[..words]);
    GrownNothing(before, 0);
    hide *;
    var i := 0;
    while i < |ps|
      invariant i <= |ps| && ws.bitset == bs && words <= bs.Length
      invariant AllReadable(plan, 0, ps[..i])
      invariant ws.levels == Grown(before, 0, Emitted(Local, plan, 0, ps[..i]))
      invariant Marked(bs[..words], 0, ps[..i])
    {
      EmitLeaf(ws, plan, si, c, ps, words, bs, i, before);
      i := i + 1;
    }
    assert ps[..|ps|] == ps;
  }

  lemma NodeAppended(sofar: Level, more: Level)
    ensures sofar + more == sofar + ([] + more)
    ensures more == [] ==> sofar == sofar + ([] + more)
  {}

  lemma NodeFacts(plan: Plan, si: nat, c: Cached, ps: seq<Pos>, k: nat, i: nat, words: nat)
    requires Run(plan, si, ps) && c == plan.subtrees[si] && i < |ps| && 1 <= k < plan.height
    requires words == Words(Pow2(plan.height - k))
    ensures var sib := Sib(Shr(ps[i].li, k));
            && sib == Place(k, ps[i].li) && sib < Pow2(plan.height - k) && sib / 64 < words
            && ValidCached(plan.hps, plan.height, c) && ValidPos(plan.hps, ps[i])
            && 0 <= LevelStart(plan.height, k) + sib < |c.store|
            && LocalSibling(plan, c, k, ps[i]) == Entry(Sib(Shr(ps[i].g, k)), c.store[LevelStart(plan.height, k) + sib], false)
  {
    hide Sib, Shr, LevelStart, Pow2;
    CellInRange(plan.hps, plan.height, k, ps[i].li);
    WordsCover(Pow2(plan.height - k), Sib(Shr(ps[i].li, k)));
  }

  lemma SubtreeFacts(plan: Plan, si: nat, c: Cached, ps: seq<Pos>)
    requires Run(plan, si, ps) && c == plan.subtrees[si]
    ensures ValidPlan(plan) && |c.leaves| == plan.hps >= 2 && plan.height == Log2(plan.hps) && plan.height >= 1
  {}

  /** The loop body of EmitLevel. */
  method EmitNode(ws: WorkerState, ghost plan: Plan, ghost si: nat, c: Cached, ps: seq<Pos>, k: nat,
                  storeOff: nat, storeSize: nat, words: nat, bs: array<bv64>, i: nat, ghost before: seq<Level>)
    requires 1 <= k < |before| && k < plan.height
    requires Run(plan, si, ps) && c == plan.subtrees[si]
    requires storeOff == LevelStart(plan.height, k) && storeSize == Pow2(plan.height - k) && words == Words(storeSize)
    requires words <= bs.Length && i < |ps| && AllReadable(plan, k, ps[..i])
    requires ws.levels == Grown(before, k, Emitted(Local, plan, k, ps[..i]))
    requires Marked(bs[..words], k, ps[..i])
    modifies ws`levels, bs
    ensures AllReadable(plan, k, ps[..i + 1])
    ensures ws.levels == Grown(before, k, Emitted(Local, plan, k, ps[..i + 1]))
    ensures Marked(bs[..words], k, ps[..i + 1])
  {
    hide *;
    SubtreeFacts(plan, si, c, ps);
    ghost var sofar := Emitted(Local, plan, k, ps[..i]);
    var p := ps[i];
    var sibLocal: int := Sib(Shr(p.li, k));
    if sibLocal >= storeSize { sibLocal := storeSize - 1; }
    NodeFacts(plan, si, c, ps, k, i, words);
    RunStep(plan, si, c, k, ps, i);

    ghost var bits := bs[..words];
    var seen := BitsetCheck(bs, words, sibLocal);
    MarkedSnoc(bits, bs[..words], k, ps[..i], p);
    MarkedMember(bits, k, ps[..i], Place(k, p.li));
    if !seen {
      var s := Entry(Sib(Shr(p.g, k)), c.store[storeOff + sibLocal], false);
      GrownOne(before, k, sofar, s);
      ws.Append(k, s);
      NodeAppended(sofar, [s]);
    } else {
      NodeAppended(sofar, []);
    }
  }

  /** Level k >= 1 of one subtree: the ancestor's sibling, once per place. */
  method EmitLevel(ws: WorkerState, ghost plan: Plan, ghost si: nat, c: Cached, ps: seq<Pos>, k: nat,
                   storeOff: nat, storeSize: nat, words: nat)
    requires 1 <= k < |ws.levels| && k < plan.height
    requires Run(plan, si, ps) && c == plan.subtrees[si]
    requires storeOff == LevelStart(plan.height, k) && storeSize == Pow2(plan.height - k) && words == Words(storeSize)
    modifies ws`levels, ws`bitset, ws.bitset
    ensures AllReadable(plan, k, ps)
    ensures ws.levels == Grown(old(ws.levels), k, Emitted(Local, plan, k, ps))
    ensures ws.bitset == old(ws.bitset) || fresh(ws.bitset)
  {
    ws.EnsureBitset(words);
    var bs := ws.bitset;
    ghost var before := ws.levels;
    RunStart(plan, si, k, ps, bs[..words]);
    GrownNothing(before, k);
    hide *;
    var i := 0;
    while i < |ps|
      invariant i <= |ps| && ws.bitset == bs && words <= bs.Length
      invariant AllReadable(plan, k, ps[..i])
      invariant ws.levels == Grown(before, k, Emitted(Local, plan, k, ps[..i]))
      invariant Marked(bs[..words], k, ps[..i])
    {
      EmitNode(ws, plan, si, c, ps, k, storeOff, storeSize, words, bs, i, before);
      i := i + 1;
    }
    assert ps[..|ps|] == ps;
  }

  /** Levels 0..top-1 have the run's entries appended, the others are as before. */
  ghost predicate GrownTo(plan: Plan, ps: seq<Pos>, before: seq<Level>, after: seq<Level>, top: nat)
    requires ValidPlan(plan)
  {
    && |after| == |before| && top <= |before|
    && (forall k :: 0 <= k < top ==> AllReadable(plan, k, ps) && after[k] == before[k] + Emitted(Local, plan, k, ps))
    && (forall k :: top <= k < |before| ==> after[k] == before[k])
  }

  lemma GrownOneMore(plan: Plan, ps: seq<Pos>, before: seq<Level>, mid: seq<Level>, after: seq<Level>, k: nat)
    requires ValidPlan(plan) && GrownTo(plan, ps, before, mid, k) && k < |before|
    requires AllReadable(plan, k, ps) && after == Grown(mid, k, Emitted(Local, plan, k, ps))
    ensures GrownTo(plan, ps, before, after, k + 1)
  {}

  lemma GrownLength(levels: seq<Level>, k: nat, more: Level)
    requires k < |levels|
    ensures |Grown(levels, k, more)| == |levels|
  {}

  lemma GrownStart(plan: Plan, ps: seq<Pos>, before: seq<Level>)
    requires ValidPlan(plan)
    ensures GrownTo(plan, ps, before, before, 0)
  {}

  /** Moving offset and size from one store level to the next; no level needs more words than level 0. */
  lemma StoreLevels(height: nat, k: nat)
    requires 1 <= k <= height
    ensures LevelStart(height, 1) == 0 && Pow2(height) / 2 == Pow2(height - 1)
    ensures LevelStart(height, k + 1) == LevelStart(height, k) + Pow2(height - k)
    ensures k < height ==> Pow2(height - k) / 2 == Pow2(height - k - 1)
    ensures Words(Pow2(height - k)) <= Words(Pow2(height) / 2)
  {
    LevelStartNext(height, k);
    Pow2Monotone(height - k, height - 1);
  }

  /**
    The subtree levels of one run of positions. The two callers differ in one line: the just-in-time path
    caps the word count of a level at that of level 0.
   */
  method EmitSubtree(ws: WorkerState, ghost plan: Plan, height: nat, ghost si: nat, c: Cached, ps: seq<Pos>, capWords: bool)
    requires height == plan.height <= |ws.levels|
    requires Run(plan, si, ps) && c == plan.subtrees[si]
    modifies ws`levels, ws`bitset, ws.bitset
    ensures GrownTo(plan, ps, old(ws.levels), ws.levels, height)
    ensures ws.bitset == old(ws.bitset) || fresh(ws.bitset)
  {
    var pad := NextPowerOfTwo(|c.leaves|);
    SubtreeFacts(plan, si, c, ps);
    var words0 := Words(pad / 2);
    ghost var before := ws.levels;
    hide *;
    EmitLeaves(ws, plan, si, c, ps, words0);
    GrownStart(plan, ps, before);
    GrownOneMore(plan, ps, before, before, ws.levels, 0);
    var storeOff := 0;
    var storeSize := pad / 2;
    var k := 1;
    StoreLevels(height, 1);
    while k < height
      invariant 1 <= k <= height && storeOff == LevelStart(height, k) && storeSize == Pow2(height - k)
      invariant GrownTo(plan, ps, before, ws.levels, k) && |ws.levels| == |before|
      invariant ws.bitset == old(ws.bitset) || fresh(ws.bitset)
    {
      var words := Words(storeSize);
      if capWords && words > words0 {
        words := words0;
      }
      StoreLevels(height, k);
      ghost var mid := ws.levels;
      EmitLevel(ws, plan, si, c, ps, k, storeOff, storeSize, words);
      GrownLength(mid, k, Emitted(Local, plan, k, ps));
      GrownOneMore(plan, ps, before, mid, ws.levels, k);
      storeOff := storeOff + storeSize;
      storeSize := storeSize / 2;
      k := k + 1;
    }
  }
}
