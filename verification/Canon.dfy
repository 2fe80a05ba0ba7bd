/**
  What a level should hold, said without any loop: for a set of owned global indices, the exact entries of
  each level, and the proof that the dedup loops emit exactly those when subtrees have 2^height leaves.
 */
module Canon {
  import opened Arith
  import opened Hashes
  import opened Tree
  import opened Block
  import opened Bump
  import opened Sorting
  import opened Emit

  /** plan holds the sealed subtrees of subs and the top-tree paths over their roots. */
  ghost predicate Sealed(hp: HashFn, subs: seq<seq<Hash>>, plan: Plan) {
    && |subs| >= 2 && plan.hps >= 2
    && (forall i :: 0 <= i < |subs| ==> |subs[i]| == plan.hps)
    && plan.height == Log2(plan.hps)
    && plan.topHeight == Log2(|subs|)
    && (forall si :: si in plan.subtrees ==>
          si < |subs| && plan.subtrees[si].leaves == subs[si] && IsStore(hp, subs[si], plan.subtrees[si].store))
    && |plan.topProofs| == |subs|
    && (forall i :: 0 <= i < |subs| ==> plan.topProofs[i] == ProofOf(hp, Roots(hp, subs), i))
  }

  lemma SealedFacts(hp: HashFn, subs: seq<seq<Hash>>, plan: Plan)
    requires Sealed(hp, subs, plan)
    ensures ValidPlan(plan) && plan.height >= 1 && plan.topHeight == Log2(|subs|) >= 1
    ensures |plan.topProofs| == |subs| >= 2 && forall i :: 0 <= i < |subs| ==> |subs[i]| == plan.hps >= 2
  {}

  /** The plan of a block of two subtrees, both loaded. */
  ghost function TwoPlan(hp: HashFn, subs: seq<seq<Hash>>): Plan
    requires |subs| == 2 && |subs[0]| == |subs[1]| >= 2
  {
    Plan(|subs[0]|, Log2(|subs[0]|), Log2(2),
         map[0 := Cached(subs[0], StoreOf(hp, subs[0])), 1 := Cached(subs[1], StoreOf(hp, subs[1]))],
         [ProofOf(hp, Roots(hp, subs), 0), ProofOf(hp, Roots(hp, subs), 1)])
  }

  lemma TwoPlanSealed(hp: HashFn, subs: seq<seq<Hash>>)
    requires |subs| == 2 && |subs[0]| == |subs[1]| >= 2
    ensures Sealed(hp, subs, TwoPlan(hp, subs)) && ValidPlan(TwoPlan(hp, subs))
  {
    StoreOfIsStore(hp, subs[0]);
    StoreOfIsStore(hp, subs[1]);
  }

  /** ... and the subtree size is a power of two. */
  ghost predicate Genuine(hp: HashFn, subs: seq<seq<Hash>>, plan: Plan) {
    Sealed(hp, subs, plan) && IsPow2(plan.hps)
  }

  lemma GenuineFacts(hp: HashFn, subs: seq<seq<Hash>>, plan: Plan)
    requires Genuine(hp, subs, plan)
    ensures ValidPlan(plan) && Uniform(subs, plan.height) && plan.hps == Pow2(plan.height)
    ensures plan.height >= 1 && plan.topHeight >= 1 && plan.topHeight == Log2(|subs|)
    ensures |plan.topProofs| == |subs|
    ensures forall si :: si in plan.subtrees ==> si < |subs|
  {}

  /** Some owned leaf lies below node (k, o). */
  ghost predicate Owns(owned: set<nat>, k: nat, o: nat) {
    exists g :: g in owned && Shr(g, k) == o
  }

  /**
    Level 0 holds every owned txid, and a plain sibling for every pair with an owned leaf; when both are
    owned the plain one is the odd one. Level k > 0 holds the siblings of the nodes with an owned leaf.
   */
  ghost predicate InLevel(hp: HashFn, subs: seq<seq<Hash>>, height: nat, owned: set<nat>, k: nat, e: Entry)
    requires Uniform(subs, height)
  {
    && e.hash == BlockNode(hp, subs, height, k, e.offset)
    && if k > 0 then !e.txid && Owns(owned, k, Sib(e.offset))
       else if e.txid then e.offset in owned
       else Sib(e.offset) in owned && (e.offset in owned ==> e.offset % 2 == 1)
  }

  ghost predicate Canonical(hp: HashFn, subs: seq<seq<Hash>>, height: nat, owned: set<nat>, k: nat, lev: Level)
    requires Uniform(subs, height)
  {
    && NoRepeats(lev)
    && (forall e :: e in lev <==> InLevel(hp, subs, height, owned, k, e))
  }

  ghost function Globals(ps: seq<Pos>): set<nat> {
    set i | 0 <= i < |ps| :: ps[i].g
  }

  lemma GlobalsSnoc(ps: seq<Pos>, p: Pos)
    ensures Globals(ps + [p]) == Globals(ps) + {p.g}
  {
    assert (ps + [p])[|ps|] == p;
    assert forall i :: 0 <= i < |ps| ==> (ps + [p])[i] == ps[i];
  }

  lemma GlobalsAppend(a: seq<Pos>, b: seq<Pos>)
    ensures Globals(a + b) == Globals(a) + Globals(b)
  {
    assert forall i :: 0 <= i < |a| ==> (a + b)[i] == a[i];
    assert forall i :: 0 <= i < |b| ==> (a + b)[|a| + i] == b[i];
  }

  // ---- The hashes emitted are those of the block tree ----------------------------------------------

  lemma ReadableFacts(hp: HashFn, subs: seq<seq<Hash>>, plan: Plan, k: nat, p: Pos)
    requires Genuine(hp, subs, plan) && Readable(plan, k, p)
    ensures p.si < |subs| && p.li < Pow2(plan.height) && p.g == p.si * Pow2(plan.height) + p.li
    ensures |subs[p.si]| > 0
  {}

  lemma StoreCell(hp: HashFn, leaves: seq<Hash>, c: Cached, hps: nat, height: nat, k: nat, li: nat)
    requires hps >= 2 && ValidCached(hps, height, c) && c.leaves == leaves && IsStore(hp, leaves, c.store)
    requires 1 <= k < height && li < hps
    ensures SubtreeSibling(hps, height, c, k, li) == Node(hp, leaves, k, Sib(Shr(li, k)))
  {
    CellInRange(hps, height, k, li);
    assert CellHolds(hp, leaves, c.store, height, k, Sib(Shr(li, k)));
  }

  lemma LeafCell(hp: HashFn, leaves: seq<Hash>, c: Cached, hps: nat, height: nat, li: nat)
    requires ValidCached(hps, height, c) && c.leaves == leaves && 0 < height && li < hps
    ensures SubtreeSibling(hps, height, c, 0, li) == Node(hp, leaves, 0, Sib(Shr(li, 0)))
  {}

  lemma SibEntryNode(hp: HashFn, subs: seq<seq<Hash>>, plan: Plan, k: nat, p: Pos)
    requires Genuine(hp, subs, plan) && Readable(plan, k, p) && ValidPlan(plan)
    requires p.si < |subs| && |subs[p.si]| > 0 && Uniform(subs, plan.height)
    ensures SibEntry(plan, k, p).hash ==
              if k < plan.height then Node(hp, subs[p.si], k, Sib(Shr(p.li, k)))
              else Node(hp, Roots(hp, subs), k - plan.height, Sib(Shr(p.si, k - plan.height)))
  {
    hide Sib, Shr, Node, Pow2, Log2, SubtreeSibling;
    if k >= plan.height {
      assert plan.topProofs[p.si] == ProofOf(hp, Roots(hp, subs), p.si);
    } else if k > 0 {
      StoreCell(hp, subs[p.si], plan.subtrees[p.si], plan.hps, plan.height, k, p.li);
    } else {
      LeafCell(hp, subs[p.si], plan.subtrees[p.si], plan.hps, plan.height, p.li);
    }
  }

  lemma SibEntryHash(hp: HashFn, subs: seq<seq<Hash>>, plan: Plan, k: nat, p: Pos)
    requires Genuine(hp, subs, plan) && Readable(plan, k, p)
    ensures ValidPlan(plan) && Uniform(subs, plan.height)
    ensures SibEntry(plan, k, p).hash == BlockNode(hp, subs, plan.height, k, Sib(Shr(p.g, k)))
  {
    hide *;
    GenuineFacts(hp, subs, plan);
    ReadableFacts(hp, subs, plan, k, p);
    SiblingNode(hp, subs, plan.height, p.si, p.li, k);
    SibEntryNode(hp, subs, plan, k, p);
  }

  lemma TxidEntryHash(hp: HashFn, subs: seq<seq<Hash>>, plan: Plan, p: Pos)
    requires Genuine(hp, subs, plan) && Readable(plan, 0, p)
    ensures ValidPlan(plan) && p.si in plan.subtrees && Uniform(subs, plan.height)
    ensures TxidEntry(plan, p).hash == BlockNode(hp, subs, plan.height, 0, p.g)
  {
    GenuineFacts(hp, subs, plan);
    DivModSplit(p.si, p.li, Pow2(plan.height));
  }

  // ---- Keys compare ancestors ----------------------------------------------------------------------

  lemma SibInjective(x: nat, y: nat)
    requires Sib(x) == Sib(y)
    ensures x == y
  {}

  lemma SamePair(x: nat, y: nat)
    ensures x / 2 == y / 2 <==> x == y || x == Sib(y)
  {}

  lemma LocalAncestor(height: nat, k: nat, p: Pos, q: Pos)
    requires ValidPos(Pow2(height), p) && ValidPos(Pow2(height), q) && k <= height
    ensures Shr(p.g, k) == Shr(q.g, k) <==> p.si == q.si && Shr(p.li, k) == Shr(q.li, k)
  {
    hide Shr;
    ShrSplit(p.si, height, p.li, k);
    ShrSplit(q.si, height, q.li, k);
    ShrBound(p.li, height, k);
    ShrBound(q.li, height, k);
    if Shr(p.g, k) == Shr(q.g, k) {
      SplitUnique(p.si, Shr(p.li, k), q.si, Shr(q.li, k), Pow2(height - k));
    }
  }

  lemma AncestorKey(keying: Keying, height: nat, k: nat, p: Pos, q: Pos)
    requires keying == Local && k < height ==>
      var j := if k == 0 then 1 else k;
      (Shr(p.g, j) == Shr(q.g, j) <==> p.si == q.si && Shr(p.li, j) == Shr(q.li, j))
    ensures Key(keying, height, k, p) == Key(keying, height, k, q) <==>
            if k == 0 then Shr(p.g, 1) == Shr(q.g, 1) else Shr(p.g, k) == Shr(q.g, k)
  {
    if k == 0 {
      ShrOne(p.g);
      ShrOne(q.g);
      ShrOne(p.li);
      ShrOne(q.li);
    } else {
      if Key(keying, height, k, p) == Key(keying, height, k, q) {
        if keying == Local && k < height { SibInjective(Shr(p.li, k), Shr(q.li, k)); }
        else { SibInjective(Shr(p.g, k), Shr(q.g, k)); }
      }
    }
  }

  /** With a power-of-two subtree size both dedup keys say the same: same level-k ancestor (at level 0, same pair). */
  lemma KeyMeansAncestor(keying: Keying, plan: Plan, k: nat, p: Pos, q: Pos)
    requires plan.hps == Pow2(plan.height) && ValidPos(plan.hps, p) && ValidPos(plan.hps, q) && plan.height >= 1
    ensures Key(keying, plan.height, k, p) == Key(keying, plan.height, k, q) <==>
            if k == 0 then Shr(p.g, 1) == Shr(q.g, 1) else Shr(p.g, k) == Shr(q.g, k)
  {
    var j := if k == 0 then 1 else k;
    if keying == Local && k < plan.height {
      LocalAncestor(plan.height, j, p, q);
    }
    AncestorKey(keying, plan.height, k, p, q);
  }

  /** Seen, said about the set of global indices before p. */
  lemma SeenMeansOwned(keying: Keying, plan: Plan, k: nat, before: seq<Pos>, p: Pos)
    requires plan.hps == Pow2(plan.height) && plan.height >= 1 && ValidPos(plan.hps, p)
    requires forall i :: 0 <= i < |before| ==> ValidPos(plan.hps, before[i])
    ensures Seen(keying, plan.height, k, before, p) <==>
            if k == 0 then Owns(Globals(before), 1, Shr(p.g, 1)) else Owns(Globals(before), k, Shr(p.g, k))
  {
    hide Key, Shr;
    var j := if k == 0 then 1 else k;
    if Seen(keying, plan.height, k, before, p) {
      var i :| 0 <= i < |before| && Key(keying, plan.height, k, before[i]) == Key(keying, plan.height, k, p);
      KeyMeansAncestor(keying, plan, k, before[i], p);
      assert before[i].g in Globals(before);
    }
    if Owns(Globals(before), j, Shr(p.g, j)) {
      var g :| g in Globals(before) && Shr(g, j) == Shr(p.g, j);
      var i :| 0 <= i < |before| && before[i].g == g;
      KeyMeansAncestor(keying, plan, k, before[i], p);
    }
  }

  // ---- The loops emit exactly the canonical entries --------------------------------------------------

  lemma OwnsGrow(owned: set<nat>, g: nat, k: nat, o: nat)
    ensures Owns(owned + {g}, k, o) <==> Owns(owned, k, o) || Shr(g, k) == o
  {
    hide Shr;
    if Owns(owned + {g}, k, o) {
      var x :| x in owned + {g} && Shr(x, k) == o;
    }
    assert g in owned + {g};
    if Owns(owned, k, o) {
      var x :| x in owned && Shr(x, k) == o;
      assert x in owned + {g};
    }
  }

  lemma GrowHigh(hp: HashFn, subs: seq<seq<Hash>>, height: nat, owned: set<nat>, k: nat, lev: Level, g: nat, e0: Entry)
    requires Uniform(subs, height) && k > 0 && Canonical(hp, subs, height, owned, k, lev)
    requires e0 == Entry(Sib(Shr(g, k)), BlockNode(hp, subs, height, k, Sib(Shr(g, k))), false)
    ensures Canonical(hp, subs, height, owned + {g}, k, lev + (if Owns(owned, k, Shr(g, k)) then [] else [e0]))
  {
    hide Shr, BlockNode, Owns;
    var more := if Owns(owned, k, Shr(g, k)) then [] else [e0];
    SibInvolution(Shr(g, k));
    forall e: Entry
      ensures e in lev + more <==> InLevel(hp, subs, height, owned + {g}, k, e)
    {
      OwnsGrow(owned, g, k, Sib(e.offset));
      SibInvolution(e.offset);
      assert e in lev <==> InLevel(hp, subs, height, owned, k, e);
    }
    assert e0 in lev ==> InLevel(hp, subs, height, owned, k, e0);
    NoRepeatsAppend(lev, more);
  }

  lemma PairOwned(owned: set<nat>, g: nat)
    ensures Owns(owned, 1, Shr(g, 1)) <==> g in owned || Sib(g) in owned
  {
    SibHalf(g);
    ShrOne(g);
    ShrOne(Sib(g));
    if Owns(owned, 1, Shr(g, 1)) {
      var x :| x in owned && Shr(x, 1) == Shr(g, 1);
      ShrOne(x);
      SamePair(x, g);
    }
  }

  lemma GrowLeaves(hp: HashFn, subs: seq<seq<Hash>>, height: nat, owned: set<nat>, lev: Level, g: nat, t0: Entry, s0: Entry)
    requires Uniform(subs, height) && Canonical(hp, subs, height, owned, 0, lev)
    requires forall x :: x in owned ==> x < g
    requires t0 == Entry(g, BlockNode(hp, subs, height, 0, g), true)
    requires s0 == Entry(Sib(g), BlockNode(hp, subs, height, 0, Sib(g)), false)
    ensures Canonical(hp, subs, height, owned + {g}, 0,
                      lev + ([t0] + if Owns(owned, 1, Shr(g, 1)) then [] else [s0]))
  {
    hide Shr, BlockNode, Owns;
    PairOwned(owned, g);
    var more := [t0] + if Owns(owned, 1, Shr(g, 1)) then [] else [s0];
    SibInvolution(g);
    forall e: Entry
      ensures e in lev + more <==> InLevel(hp, subs, height, owned + {g}, 0, e)
    {
      SibInvolution(e.offset);
      assert e in lev <==> InLevel(hp, subs, height, owned, 0, e);
      assert e in more <==> e == t0 || (e == s0 && !Owns(owned, 1, Shr(g, 1)));
    }
    assert t0 in lev ==> InLevel(hp, subs, height, owned, 0, t0);
    assert s0 in lev ==> InLevel(hp, subs, height, owned, 0, s0);
    NoRepeatsAppend(lev, more);
  }

  ghost predicate Increasing(ps: seq<Pos>) {
    forall i, j :: 0 <= i < j < |ps| ==> ps[i].g < ps[j].g
  }

  lemma EmptyCanonical(hp: HashFn, subs: seq<seq<Hash>>, height: nat, k: nat)
    requires Uniform(subs, height)
    ensures Canonical(hp, subs, height, {}, k, [])
  {}

  lemma ReadablePositions(plan: Plan, k: nat, ps: seq<Pos>, p: Pos)
    requires AllReadable(plan, k, ps) && Readable(plan, k, p)
    ensures ValidPos(plan.hps, p) && forall i :: 0 <= i < |ps| ==> ValidPos(plan.hps, ps[i])
  {}

  lemma StepParts(keying: Keying, plan: Plan, k: nat, before: seq<Pos>, p: Pos)
    requires ValidPlan(plan) && Readable(plan, k, p)
    ensures var sib := if Seen(keying, plan.height, k, before, p) then [] else [SibEntry(plan, k, p)];
            Step(keying, plan, k, before, p) == if k == 0 then [TxidEntry(plan, p)] + sib else sib
    ensures SibEntry(plan, k, p) == Entry(Sib(Shr(p.g, k)), SibEntry(plan, k, p).hash, false)
    ensures k == 0 ==> p.si in plan.subtrees && TxidEntry(plan, p) == Entry(p.g, TxidEntry(plan, p).hash, true)
    ensures Shr(p.g, 0) == p.g
  {}

  lemma StepCanonical(keying: Keying, hp: HashFn, subs: seq<seq<Hash>>, plan: Plan, k: nat, ps: seq<Pos>, p: Pos, lev: Level)
    requires Genuine(hp, subs, plan) && ValidPlan(plan) && Uniform(subs, plan.height)
    requires AllReadable(plan, k, ps) && Readable(plan, k, p)
    requires forall x :: k == 0 && x in Globals(ps) ==> x < p.g
    requires Canonical(hp, subs, plan.height, Globals(ps), k, lev)
    ensures Canonical(hp, subs, plan.height, Globals(ps) + {p.g}, k, lev + Step(keying, plan, k, ps, p))
  {
    hide *;
    GenuineFacts(hp, subs, plan);
    SibEntryHash(hp, subs, plan, k, p);
    ReadablePositions(plan, k, ps, p);
    SeenMeansOwned(keying, plan, k, ps, p);
    StepParts(keying, plan, k, ps, p);
    if k == 0 {
      TxidEntryHash(hp, subs, plan, p);
      GrowLeaves(hp, subs, plan.height, Globals(ps), lev, p.g, TxidEntry(plan, p), SibEntry(plan, 0, p));
    } else {
      GrowHigh(hp, subs, plan.height, Globals(ps), k, lev, p.g, SibEntry(plan, k, p));
    }
  }

  /** Either dedup, over any positions (increasing ones at level 0), emits the canonical level. */
  lemma {:induction false} EmittedCanonical(keying: Keying, hp: HashFn, subs: seq<seq<Hash>>, plan: Plan, k: nat, ps: seq<Pos>)
    requires Genuine(hp, subs, plan) && AllReadable(plan, k, ps)
    requires k == 0 ==> Increasing(ps)
    ensures ValidPlan(plan) && Uniform(subs, plan.height)
    ensures Canonical(hp, subs, plan.height, Globals(ps), k, Emitted(keying, plan, k, ps))
    decreases |ps|
  {
    GenuineFacts(hp, subs, plan);
    if ps == [] {
      EmptyCanonical(hp, subs, plan.height, k);
      assert Globals(ps) == {};
    } else {
      var ps0, p := ps[..|ps| - 1], ps[|ps| - 1];
      EmittedCanonical(keying, hp, subs, plan, k, ps0);
      assert ps == ps0 + [p] && Readable(plan, k, p);
      assert forall x :: k == 0 && x in Globals(ps0) ==> x < p.g;
      hide *;
      EmittedSnoc(keying, plan, k, ps0, p);
      GlobalsSnoc(ps0, p);
      StepCanonical(keying, hp, subs, plan, k, ps0, p, Emitted(keying, plan, k, ps0));
    }
  }

  lemma OwnsUnion(a: set<nat>, b: set<nat>, k: nat, o: nat)
    ensures Owns(a + b, k, o) <==> Owns(a, k, o) || Owns(b, k, o)
  {
    hide Shr;
    assert forall x :: x in a || x in b <==> x in a + b;
  }

  lemma OwnsApart(a: set<nat>, b: set<nat>, height: nat, k: nat, o: nat)
    requires k <= height
    requires forall x, y :: x in a && y in b ==> Shr(x, height) != Shr(y, height)
    ensures !(Owns(a, k, o) && Owns(b, k, o))
  {
    hide Shr;
    if Owns(a, k, o) && Owns(b, k, o) {
      var x :| x in a && Shr(x, k) == o;
      var y :| y in b && Shr(y, k) == o;
      ShrAdd(x, k, height - k);
      ShrAdd(y, k, height - k);
    }
  }

  lemma EntryApart(hp: HashFn, subs: seq<seq<Hash>>, height: nat, k: nat, a: set<nat>, b: set<nat>, e: Entry)
    requires Uniform(subs, height) && k < height
    requires forall x, y :: x in a && y in b ==> Shr(x, height) != Shr(y, height)
    ensures InLevel(hp, subs, height, a + b, k, e) <==>
            InLevel(hp, subs, height, a, k, e) || InLevel(hp, subs, height, b, k, e)
    ensures !(InLevel(hp, subs, height, a, k, e) && InLevel(hp, subs, height, b, k, e))
  {
    OwnsUnion(a, b, k, Sib(e.offset));
    OwnsApart(a, b, height, k, Sib(e.offset));
    if k == 0 {
      OwnsApart(a, b, height, 1, Shr(e.offset, 1));
      PairOwned(a, e.offset);
      PairOwned(b, e.offset);
      OwnsApart(a, b, height, 0, e.offset);
    }
  }

  /** Levels of different subtrees, put side by side, are the level of both. */
  lemma CanonicalAppend(hp: HashFn, subs: seq<seq<Hash>>, height: nat, k: nat, a: set<nat>, b: set<nat>, la: Level, lb: Level)
    requires Uniform(subs, height) && k < height
    requires forall x, y :: x in a && y in b ==> Shr(x, height) != Shr(y, height)
    requires Canonical(hp, subs, height, a, k, la) && Canonical(hp, subs, height, b, k, lb)
    ensures Canonical(hp, subs, height, a + b, k, la + lb)
  {
    hide Shr, BlockNode;
    forall e: Entry
      ensures InLevel(hp, subs, height, a + b, k, e) <==>
              InLevel(hp, subs, height, a, k, e) || InLevel(hp, subs, height, b, k, e)
      ensures !(InLevel(hp, subs, height, a, k, e) && InLevel(hp, subs, height, b, k, e))
    {
      EntryApart(hp, subs, height, k, a, b, e);
    }
    forall e: Entry
      ensures e in la + lb <==> InLevel(hp, subs, height, a + b, k, e)
      ensures e in la ==> e !in lb
    {
      assert e in la <==> InLevel(hp, subs, height, a, k, e);
      assert e in lb <==> InLevel(hp, subs, height, b, k, e);
    }
    NoRepeatsAppend(la, lb);
  }
}
