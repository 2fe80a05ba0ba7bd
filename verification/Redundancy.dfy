/**
  Which entries of a finished path a verifier could do without. Pruning only looks one level down, so an entry can
  stay that its descendants determine; the exact condition is stated on the owned leaves.
 */
module Redundancy {
  import opened Arith
  import opened Hashes
  import opened Block
  import opened Bump
  import opened Canon
  import opened Validity

  /** Node (h, o) or its sibling has an owned leaf below it. */
  ghost predicate Reaches(owned: set<nat>, h: nat, o: nat) {
    Owns(owned, h, o) || Owns(owned, h, Sib(o))
  }

  lemma ReachesMeans(owned: set<nat>, h: nat, o: nat)
    ensures Reaches(owned, h, o) <==> Owns(owned, h, o) || Owns(owned, h, Sib(o))
  {}

  lemma OwnsLeaf(owned: set<nat>, o: nat)
    ensures Owns(owned, 0, o) <==> o in owned
  {
    assert forall g: nat :: Shr(g, 0) == g;
  }

  lemma OwnsChildren(owned: set<nat>, h: nat, o: nat)
    ensures Owns(owned, h + 1, o) <==> Owns(owned, h, 2 * o) || Owns(owned, h, 2 * o + 1)
  {
    if Owns(owned, h + 1, o) {
      var g :| g in owned && Shr(g, h + 1) == o;
      assert Shr(g, h) == 2 * o || Shr(g, h) == 2 * o + 1;
    }
    if Owns(owned, h, 2 * o) {
      var g :| g in owned && Shr(g, h) == 2 * o;
      assert Shr(g, h + 1) == o;
    }
    if Owns(owned, h, 2 * o + 1) {
      var g :| g in owned && Shr(g, h) == 2 * o + 1;
      assert Shr(g, h + 1) == o;
    }
  }

  lemma ChildrenReach(owned: set<nat>, h: nat, o: nat)
    ensures Reaches(owned, h, 2 * o) <==> Owns(owned, h + 1, o)
    ensures Reaches(owned, h, 2 * o + 1) <==> Owns(owned, h + 1, o)
  {
    OwnsChildren(owned, h, o);
    SiblingsBelow(o);
    hide Owns;
  }

  lemma ListedReaches(hp: HashFn, subs: seq<seq<Hash>>, height: nat, owned: set<nat>, raw: Path, h: nat, o: nat)
    requires CanonicalPath(hp, subs, height, owned, owned, raw) && h < |raw|
    ensures Lists(raw[h], o) ==> Reaches(owned, h, o)
    ensures Owns(owned, h, Sib(o)) || (h == 0 && Reaches(owned, 0, o)) ==> Lists(raw[h], o)
  {
    CanonicalLists(hp, subs, height, owned, h, raw[h], o);
    OwnsLeaf(owned, o);
    OwnsLeaf(owned, Sib(o));
    hide Owns;
  }

  lemma ResolveStep(hp: HashFn, path: Path, h: nat, o: nat)
    requires h < |path|
    ensures Resolve(hp, path, h, o).Some? <==>
      || FindHash(path[h], o).Some?
      || (h > 0 && Resolve(hp, path, h - 1, 2 * o).Some? && Resolve(hp, path, h - 1, 2 * o + 1).Some?)
  {}

  lemma FinishedFinds(hp: HashFn, raw: Path, out: Path, h: nat, o: nat)
    requires Finished(raw, out) && h < |raw|
    ensures |out| == |raw|
    ensures FindHash(out[h], o).Some? ==> Lists(raw[h], o)
    ensures Lists(raw[h], o) ==> Resolve(hp, out, h, o).Some?
  {
    assert |out| == |raw|;
    hide *;
    FinishedLists(raw, out, h, o);
    FindHashSpec(out[h], o);
    if Lists(raw[h], o) { PruneResolves(hp, raw, out, h, o); }
  }

  /** A verifier can resolve exactly the nodes that have an owned leaf below them or below their sibling. */
  lemma {:induction false} ResolvesIff(hp: HashFn, subs: seq<seq<Hash>>, height: nat, owned: set<nat>,
                                       raw: Path, out: Path, h: nat, o: nat)
    requires CanonicalPath(hp, subs, height, owned, owned, raw) && Finished(raw, out) && h < |raw|
    ensures |out| == |raw|
    ensures Resolve(hp, out, h, o).Some? <==> Reaches(owned, h, o)
    decreases h
  {
    hide *;
    ReachesMeans(owned, h, o);
    FinishedFinds(hp, raw, out, h, o);
    ResolveStep(hp, out, h, o);
    ListedReaches(hp, subs, height, owned, raw, h, o);
    if h > 0 {
      ResolvesIff(hp, subs, height, owned, raw, out, h - 1, 2 * o);
      ResolvesIff(hp, subs, height, owned, raw, out, h - 1, 2 * o + 1);
      ChildrenReach(owned, h - 1, o);
    }
  }

  /** The level without the entries at o. */
  function Dropped(lev: Level, o: nat): Level {
    if lev == [] then []
    else (if lev[0].offset == o then [] else [lev[0]]) + Dropped(lev[1..], o)
  }

  lemma {:induction false} DroppedNotFound(lev: Level, o: nat)
    ensures FindHash(Dropped(lev, o), o) == None
  {
    if lev != [] {
      DroppedNotFound(lev[1..], o);
      assert [] + Dropped(lev[1..], o) == Dropped(lev[1..], o);
      if lev[0].offset != o { assert Dropped(lev, o)[1..] == Dropped(lev[1..], o); }
    }
  }

  /** Resolving a node only looks at its own level and those below. */
  lemma {:induction false} ResolveBelow(hp: HashFn, a: Path, b: Path, h: nat, o: nat)
    requires h < |a| && h < |b| && forall k :: 0 <= k <= h ==> a[k] == b[k]
    ensures Resolve(hp, a, h, o) == Resolve(hp, b, h, o)
    decreases h
  {
    if h > 0 {
      ResolveBelow(hp, a, b, h - 1, 2 * o);
      ResolveBelow(hp, a, b, h - 1, 2 * o + 1);
    }
  }

  /** Without its entries at (h, o) the path still gives that node's hash. */
  ghost predicate Redundant(hp: HashFn, path: Path, h: nat, o: nat) {
    && h < |path| && Lists(path[h], o)
    && Resolve(hp, path[h := Dropped(path[h], o)], h, o) == Resolve(hp, path, h, o)
  }

  lemma WithoutResolves(hp: HashFn, path: Path, h: nat, o: nat)
    requires h < |path|
    ensures var rest := path[h := Dropped(path[h], o)];
      Resolve(hp, rest, h, o).Some? <==>
      h > 0 && Resolve(hp, path, h - 1, 2 * o).Some? && Resolve(hp, path, h - 1, 2 * o + 1).Some?
  {
    hide *;
    var rest := path[h := Dropped(path[h], o)];
    DroppedNotFound(path[h], o);
    ResolveStep(hp, rest, h, o);
    if h > 0 {
      ResolveBelow(hp, rest, path, h - 1, 2 * o);
      ResolveBelow(hp, rest, path, h - 1, 2 * o + 1);
    }
  }

  lemma {:induction false} DroppedMember(lev: Level, o: nat, e: Entry)
    ensures e in Dropped(lev, o) ==> e in lev
  {
    if lev != [] { DroppedMember(lev[1..], o, e); }
  }

  lemma WithoutHonest(hp: HashFn, subs: seq<seq<Hash>>, height: nat, path: Path, h: nat, o: nat)
    requires Uniform(subs, height) && Honest(hp, subs, height, path) && h < |path|
    ensures Honest(hp, subs, height, path[h := Dropped(path[h], o)])
  {
    var rest := path[h := Dropped(path[h], o)];
    forall k: nat, e: Entry | 0 <= k < |rest| && e in rest[k]
      ensures e.hash == BlockNode(hp, subs, height, k, e.offset)
    {
      if k == h { DroppedMember(path[h], o, e); }
      assert e in path[k];
    }
  }

  lemma StillListed(hp: HashFn, path: Path, h: nat, o: nat)
    requires h < |path| && Lists(path[h], o)
    ensures Resolve(hp, path, h, o).Some?
  {
    FindHashSpec(path[h], o);
  }

  /** What the rest of the path gives for a listed node is that node's hash, if anything. */
  lemma RedundantMeans(hp: HashFn, subs: seq<seq<Hash>>, height: nat, path: Path, h: nat, o: nat)
    requires Uniform(subs, height) && Honest(hp, subs, height, path) && h < |path| && Lists(path[h], o)
    ensures Redundant(hp, path, h, o) <==> Resolve(hp, path[h := Dropped(path[h], o)], h, o).Some?
  {
    var rest := path[h := Dropped(path[h], o)];
    hide Resolve, Honest, Dropped, Lists;
    StillListed(hp, path, h, o);
    WithoutHonest(hp, subs, height, path, h, o);
    ResolveHonest(hp, subs, height, path, h, o);
    ResolveHonest(hp, subs, height, rest, h, o);
  }

  lemma FinishedIsHonest(hp: HashFn, subs: seq<seq<Hash>>, height: nat, owned: set<nat>, raw: Path, out: Path)
    requires CanonicalPath(hp, subs, height, owned, owned, raw) && Finished(raw, out)
    ensures Uniform(subs, height) && Honest(hp, subs, height, out)
  {
    assert Uniform(subs, height);
    hide *;
    CanonicalHonest(hp, subs, height, owned, owned, raw);
    FinishedHonest(hp, subs, height, raw, out);
  }

  /** A surviving entry is redundant exactly when an owned leaf lies below it; at level 0 none is. */
  lemma RedundantIff(hp: HashFn, subs: seq<seq<Hash>>, height: nat, owned: set<nat>, raw: Path, out: Path, h: nat, o: nat)
    requires CanonicalPath(hp, subs, height, owned, owned, raw) && Finished(raw, out) && h < |raw| == |out|
    requires Lists(out[h], o)
    ensures Redundant(hp, out, h, o) <==> h > 0 && Owns(owned, h, o)
  {
    hide *;
    FinishedIsHonest(hp, subs, height, owned, raw, out);
    RedundantMeans(hp, subs, height, out, h, o);
    WithoutResolves(hp, out, h, o);
    if h > 0 {
      ResolvesIff(hp, subs, height, owned, raw, out, h - 1, 2 * o);
      ResolvesIff(hp, subs, height, owned, raw, out, h - 1, 2 * o + 1);
      ChildrenReach(owned, h - 1, o);
    }
  }

  ghost predicate Minimal(hp: HashFn, path: Path) {
    forall h, o: nat :: !Redundant(hp, path, h, o)
  }

  /** A node and its sibling both have owned leaves, but one of the node's two halves has none. */
  ghost predicate Lopsided(owned: set<nat>, h: nat, o: nat)
    requires h > 0
  {
    && Owns(owned, h, o) && Owns(owned, h, Sib(o))
    && !(Owns(owned, h - 1, 2 * o) && Owns(owned, h - 1, 2 * o + 1))
  }

  ghost predicate NoneLopsided(owned: set<nat>, levels: nat) {
    forall h, o: nat :: 2 <= h < levels ==> !Lopsided(owned, h, o)
  }

  lemma RedundantLopsided(hp: HashFn, subs: seq<seq<Hash>>, height: nat, owned: set<nat>, raw: Path, out: Path, h: nat, o: nat)
    requires CanonicalPath(hp, subs, height, owned, owned, raw) && Finished(raw, out)
    ensures Redundant(hp, out, h, o) <==> 2 <= h < |raw| && Lopsided(owned, h, o)
  {
    assert |out| == |raw|;
    assert h >= |out| || !Lists(out[h], o) ==> !Redundant(hp, out, h, o);
    hide CanonicalPath, Finished, Owns, Lists, Redundant, Sib;
    if h < |raw| {
      ExactContent(hp, subs, height, owned, raw, out, h, o);
      if Lists(out[h], o) { RedundantIff(hp, subs, height, owned, raw, out, h, o); }
    }
  }

  /** A finished path has nothing a verifier could do without exactly when no node above level 1 is lopsided. */
  lemma MinimalIff(hp: HashFn, subs: seq<seq<Hash>>, height: nat, owned: set<nat>, raw: Path, out: Path)
    requires CanonicalPath(hp, subs, height, owned, owned, raw) && Finished(raw, out)
    ensures Minimal(hp, out) <==> NoneLopsided(owned, |raw|)
  {
    forall h: nat, o: nat
      ensures Redundant(hp, out, h, o) <==> 2 <= h < |raw| && Lopsided(owned, h, o)
    {
      RedundantLopsided(hp, subs, height, owned, raw, out, h, o);
    }
    hide CanonicalPath, Finished, Redundant, Lopsided;
  }
}
