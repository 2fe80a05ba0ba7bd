/**
  What the assembly loops append to each level, before sorting and pruning: for every position, at level 0
  its txid, and at every level the sibling of its ancestor unless an earlier position already gave it.
 */
module Emit {
  import opened Arith
  import opened Hashes
  import opened Tree
  import opened Bump
  import opened Sorting

  /** One leaf position: subtree index, index inside the subtree, global index. */
  datatype Pos = Pos(si: nat, li: nat, g: nat)

  /** One subtree as loaded: its leaves and its flat store. */
  datatype Cached = Cached(leaves: seq<Hash>, store: seq<Hash>)

  /** Everything the assembly reads besides the positions. */
  datatype Plan = Plan(hps: nat, height: nat, topHeight: nat, subtrees: map<nat, Cached>, topProofs: seq<seq<Hash>>)

  ghost predicate ValidCached(hps: nat, height: nat, c: Cached) {
    hps >= 2 && height == Log2(hps) && |c.leaves| == hps && |c.store| == Pow2(height) - 1
  }

  ghost predicate ValidPlan(plan: Plan) {
    && plan.hps >= 2
    && plan.height == Log2(plan.hps)
    && (forall si :: si in plan.subtrees ==> ValidCached(plan.hps, plan.height, plan.subtrees[si]))
    && (forall i :: 0 <= i < |plan.topProofs| ==> |plan.topProofs[i]| == plan.topHeight)
  }

  ghost predicate ValidPos(hps: nat, p: Pos) {
    p.li < hps && p.g == p.si * hps + p.li
  }

  /** p can be read at level k: the subtree levels need its subtree, the top levels its root's path. */
  ghost predicate Readable(plan: Plan, k: nat, p: Pos) {
    && ValidPos(plan.hps, p)
    && k < plan.height + plan.topHeight
    && (k < plan.height ==> p.si in plan.subtrees)
    && (k >= plan.height ==> p.si < |plan.topProofs|)
  }

  ghost predicate AllReadable(plan: Plan, k: nat, ps: seq<Pos>) {
    forall i :: 0 <= i < |ps| ==> Readable(plan, k, ps[i])
  }

  lemma CellInRange(hps: nat, height: nat, k: nat, li: nat)
    requires hps >= 2 && height == Log2(hps) && 1 <= k < height && li < hps
    ensures Sib(Shr(li, k)) < Pow2(height - k)
    ensures 0 <= LevelStart(height, k) && LevelStart(height, k) + Sib(Shr(li, k)) < Pow2(height) - 1
  {
    hide Sib, Shr;
    Log2Bounds(hps);
    ShrBound(li, height, k);
    SibBound(Shr(li, k), height - k);
    LevelStartNext(height, k);
  }

  /** The sibling hash of li's level-k ancestor inside its subtree, clamped at the leaves as the source does. */
  ghost function SubtreeSibling(hps: nat, height: nat, c: Cached, k: nat, li: nat): Hash
    requires ValidCached(hps, height, c) && k < height && li < hps
  {
    if k == 0 then c.leaves[if Sib(li) >= hps then li else Sib(li)]
    else
      CellInRange(hps, height, k, li);
      c.store[LevelStart(height, k) + Sib(Shr(li, k))]
  }

  ghost function TxidEntry(plan: Plan, p: Pos): Entry
    requires ValidPlan(plan) && ValidPos(plan.hps, p) && p.si in plan.subtrees
  {
    Entry(p.g, plan.subtrees[p.si].leaves[p.li], true)
  }

  ghost function SibEntry(plan: Plan, k: nat, p: Pos): Entry
    requires ValidPlan(plan) && Readable(plan, k, p)
  {
    Entry(Sib(Shr(p.g, k)),
          if k < plan.height then SubtreeSibling(plan.hps, plan.height, plan.subtrees[p.si], k, p.li)
          else plan.topProofs[p.si][k - plan.height],
          false)
  }

  /**
    What the dedup compares. The bitset loops compare places inside one subtree; the older map loops
    compare global offsets. The top levels compare global offsets in both.
   */
  datatype Keying = Local | Global

  function Key(keying: Keying, height: nat, k: nat, p: Pos): (nat, nat) {
    if keying == Local && k < height then (p.si, if k == 0 then p.li / 2 else Sib(Shr(p.li, k)))
    else (0, if k == 0 then p.g / 2 else Sib(Shr(p.g, k)))
  }

  ghost predicate Seen(keying: Keying, height: nat, k: nat, before: seq<Pos>, p: Pos) {
    exists i :: 0 <= i < |before| && Key(keying, height, k, before[i]) == Key(keying, height, k, p)
  }

  /** What one position appends, given the positions before it. */
  ghost function Step(keying: Keying, plan: Plan, k: nat, before: seq<Pos>, p: Pos): Level
    requires ValidPlan(plan) && Readable(plan, k, p)
  {
    (if k == 0 then [TxidEntry(plan, p)] else []) +
    (if Seen(keying, plan.height, k, before, p) then [] else [SibEntry(plan, k, p)])
  }

  ghost function Emitted(keying: Keying, plan: Plan, k: nat, ps: seq<Pos>): Level
    requires ValidPlan(plan) && AllReadable(plan, k, ps)
  {
    if ps == [] then []
    else Emitted(keying, plan, k, ps[..|ps| - 1]) + Step(keying, plan, k, ps[..|ps| - 1], ps[|ps| - 1])
  }

  lemma EmittedSnoc(keying: Keying, plan: Plan, k: nat, ps: seq<Pos>, p: Pos)
    requires ValidPlan(plan) && AllReadable(plan, k, ps) && Readable(plan, k, p)
    ensures AllReadable(plan, k, ps + [p])
    ensures Emitted(keying, plan, k, ps + [p]) == Emitted(keying, plan, k, ps) + Step(keying, plan, k, ps, p)
  {
    assert (ps + [p])[..|ps|] == ps;
  }

  ghost predicate KeysApart(keying: Keying, height: nat, k: nat, a: seq<Pos>, b: seq<Pos>) {
    forall i, j :: 0 <= i < |a| && 0 <= j < |b| ==> Key(keying, height, k, a[i]) != Key(keying, height, k, b[j])
  }

  lemma ReadableAppend(plan: Plan, k: nat, a: seq<Pos>, b: seq<Pos>)
    ensures AllReadable(plan, k, a) && AllReadable(plan, k, b) <==> AllReadable(plan, k, a + b)
  {
    if AllReadable(plan, k, a + b) {
      assert forall i :: 0 <= i < |a| ==> a[i] == (a + b)[i];
      assert forall i :: 0 <= i < |b| ==> b[i] == (a + b)[|a| + i];
    }
  }

  lemma KeysApartSplit(keying: Keying, height: nat, k: nat, a: seq<Pos>, b: seq<Pos>, p: Pos)
    requires KeysApart(keying, height, k, a, b + [p])
    ensures KeysApart(keying, height, k, a, b) && KeysApart(keying, height, k, a, [p])
  {
    hide Key;
    assert (b + [p])[|b|] == p;
    assert forall j :: 0 <= j < |b| ==> (b + [p])[j] == b[j];
  }

  lemma SeenApart(keying: Keying, height: nat, k: nat, a: seq<Pos>, b: seq<Pos>, p: Pos)
    requires KeysApart(keying, height, k, a, [p])
    ensures Seen(keying, height, k, a + b, p) <==> Seen(keying, height, k, b, p)
  {
    hide Key;
    assert [p][0] == p;
    assert forall i :: 0 <= i < |b| ==> (a + b)[|a| + i] == b[i];
    if Seen(keying, height, k, a + b, p) {
      var i :| 0 <= i < |a + b| && Key(keying, height, k, (a + b)[i]) == Key(keying, height, k, p);
      assert b[i - |a|] == (a + b)[i];
    }
  }

  lemma StepApart(keying: Keying, plan: Plan, k: nat, a: seq<Pos>, b: seq<Pos>, p: Pos)
    requires ValidPlan(plan) && Readable(plan, k, p) && KeysApart(keying, plan.height, k, a, [p])
    ensures Step(keying, plan, k, a + b, p) == Step(keying, plan, k, b, p)
  {
    SeenApart(keying, plan.height, k, a, b, p);
  }

  lemma EmittedAppendOne(keying: Keying, plan: Plan, k: nat, a: seq<Pos>, b: seq<Pos>, p: Pos)
    requires ValidPlan(plan) && AllReadable(plan, k, a) && AllReadable(plan, k, b) && AllReadable(plan, k, [p])
    requires KeysApart(keying, plan.height, k, a, [p])
    requires AllReadable(plan, k, a + b) && AllReadable(plan, k, b + [p]) && AllReadable(plan, k, a + (b + [p]))
    requires Emitted(keying, plan, k, a + b) == Emitted(keying, plan, k, a) + Emitted(keying, plan, k, b)
    ensures Emitted(keying, plan, k, a + (b + [p])) == Emitted(keying, plan, k, a) + Emitted(keying, plan, k, b + [p])
  {
    assert Readable(plan, k, [p][0]);
    hide *;
    ConcatAssoc(a, b, [p]);
    EmittedSnoc(keying, plan, k, a + b, p);
    EmittedSnoc(keying, plan, k, b, p);
    StepApart(keying, plan, k, a, b, p);
    ConcatAssoc(Emitted(keying, plan, k, a), Emitted(keying, plan, k, b), Step(keying, plan, k, b, p));
  }

  /** Runs of positions that share no key are emitted independently. */
  lemma {:induction false} EmittedAppend(keying: Keying, plan: Plan, k: nat, a: seq<Pos>, b: seq<Pos>)
    requires ValidPlan(plan) && AllReadable(plan, k, a) && AllReadable(plan, k, b)
    requires KeysApart(keying, plan.height, k, a, b)
    ensures AllReadable(plan, k, a + b)
    ensures Emitted(keying, plan, k, a + b) == Emitted(keying, plan, k, a) + Emitted(keying, plan, k, b)
  {
    ReadableAppend(plan, k, a, b);
    if b == [] {
      assert a + b == a;
    } else {
      var b0, p := b[..|b| - 1], b[|b| - 1];
      assert b == b0 + [p];
      hide *;
      KeysApartSplit(keying, plan.height, k, a, b0, p);
      ReadableAppend(plan, k, b0, [p]);
      EmittedAppend(keying, plan, k, a, b0);
      EmittedAppendOne(keying, plan, k, a, b0, p);
    }
  }
}
