/** Compound merkle paths: what a level lists, how pruning shrinks a path, and how a verifier reads one. */
module Bump {
  import opened Arith
  import opened Hashes
  import opened Tree
  import opened Block

  datatype Entry = Entry(offset: nat, hash: Hash, txid: bool)

  type Level = seq<Entry>
  type Path = seq<Level>

  ghost predicate Lists(lev: Level, o: nat) {
    exists i :: 0 <= i < |lev| && lev[i].offset == o
  }

  ghost predicate Sorted(lev: Level) {
    forall i, j :: 0 <= i < j < |lev| ==> lev[i].offset <= lev[j].offset
  }

  ghost predicate StrictlySorted(lev: Level) {
    forall i, j :: 0 <= i < j < |lev| ==> lev[i].offset < lev[j].offset
  }

  /** What sort.Slice promises: the same entries by offset, ties in any order. */
  ghost predicate SortOf(lev: Level, sorted: Level) {
    multiset(lev) == multiset(sorted) && Sorted(sorted)
  }

  // ---- Pruning ---------------------------------------------------------------------------------

  /** Both children of (h, o) are listed one level down, before that level is pruned itself. */
  ghost predicate Prunable(path: Path, h: nat, o: nat)
    requires h < |path|
  {
    h > 0 && Lists(path[h - 1], 2 * o) && Lists(path[h - 1], 2 * o + 1)
  }

  /** The first n entries of level h without the prunable ones, in their order. */
  ghost function Kept(path: Path, h: nat, n: nat): Level
    requires h < |path| && n <= |path[h]|
  {
    if n == 0 then []
    else Kept(path, h, n - 1) + (if Prunable(path, h, path[h][n - 1].offset) then [] else [path[h][n - 1]])
  }

  /** The path after pruning and sorting, whichever order the sort left ties in. */
  ghost predicate Finished(raw: Path, out: Path) {
    |out| == |raw| && forall h :: 0 <= h < |raw| ==> SortOf(Kept(raw, h, |raw[h]|), out[h])
  }

  lemma {:induction false} KeptEntry(path: Path, h: nat, n: nat, e: Entry)
    requires h < |path| && n <= |path[h]|
    ensures e in Kept(path, h, n) <==> e in path[h][..n] && !Prunable(path, h, e.offset)
  {
    if n > 0 {
      KeptEntry(path, h, n - 1, e);
      assert path[h][..n] == path[h][..n - 1] + [path[h][n - 1]];
    }
  }

  lemma FinishedEntry(raw: Path, out: Path, h: nat, e: Entry)
    requires Finished(raw, out) && h < |raw|
    ensures e in out[h] <==> e in raw[h] && !Prunable(raw, h, e.offset)
  {
    KeptEntry(raw, h, |raw[h]|, e);
    assert raw[h][..|raw[h]|] == raw[h];
    var kept := Kept(raw, h, |raw[h]|);
    assert SortOf(kept, out[h]);
    assert e in out[h] <==> e in multiset(out[h]);
    assert e in kept <==> e in multiset(kept);
  }

  lemma FinishedLists(raw: Path, out: Path, h: nat, o: nat)
    requires Finished(raw, out) && h < |raw|
    ensures Lists(out[h], o) <==> Lists(raw[h], o) && !Prunable(raw, h, o)
  {
    if Lists(out[h], o) {
      var i :| 0 <= i < |out[h]| && out[h][i].offset == o;
      FinishedEntry(raw, out, h, out[h][i]);
    }
    if Lists(raw[h], o) && !Prunable(raw, h, o) {
      var i :| 0 <= i < |raw[h]| && raw[h][i].offset == o;
      FinishedEntry(raw, out, h, raw[h][i]);
      assert raw[h][i] in out[h];
    }
  }

  // ---- The verifier ----------------------------------------------------------------------------

  function FindHash(lev: Level, o: nat): Option<Hash> {
    if lev == [] then None
    else if lev[0].offset == o then Some(lev[0].hash)
    else FindHash(lev[1..], o)
  }

  /** BRC-74 lookup: a node that is not listed is computed from its two children. */
  function Resolve(hp: HashFn, path: Path, h: nat, o: nat): Option<Hash>
    requires h < |path|
    decreases h
  {
    match FindHash(path[h], o)
    case Some(x) => Some(x)
    case None =>
      if h == 0 then None
      else match (Resolve(hp, path, h - 1, 2 * o), Resolve(hp, path, h - 1, 2 * o + 1))
           case (Some(l), Some(r)) => Some(hp(l, r))
           case _ => None
  }

  /** From node o of level h, whose hash is cur, up to the root. */
  function Climb(hp: HashFn, path: Path, h: nat, o: nat, cur: Hash): Option<Hash>
    requires h <= |path|
    decreases |path| - h
  {
    if h == |path| then Some(cur)
    else match Resolve(hp, path, h, Sib(o))
         case None => None
         case Some(s) => Climb(hp, path, h + 1, o / 2, Join(hp, o, cur, s))
  }

  /** The offset of a txid at level 0. */
  function FindTxid(lev: Level, txid: Hash): Option<nat> {
    if lev == [] then None
    else if lev[0].hash == txid then Some(lev[0].offset)
    else FindTxid(lev[1..], txid)
  }

  /** The root a verifier computes for a txid, if the path lets it. */
  function ComputeRoot(hp: HashFn, path: Path, txid: Hash): Option<Hash>
    requires |path| > 0
  {
    match FindTxid(path[0], txid)
    case None => None
    case Some(o) => Climb(hp, path, 0, o, txid)
  }

  // ---- Soundness of pruning --------------------------------------------------------------------

  ghost predicate Honest(hp: HashFn, subs: seq<seq<Hash>>, height: nat, path: Path)
    requires Uniform(subs, height)
  {
    forall h, e :: 0 <= h < |path| && e in path[h] ==> e.hash == BlockNode(hp, subs, height, h, e.offset)
  }

  lemma {:induction false} FindHashSpec(lev: Level, o: nat)
    ensures FindHash(lev, o).Some? <==> Lists(lev, o)
    ensures FindHash(lev, o).Some? ==> exists i :: 0 <= i < |lev| && lev[i].offset == o && lev[i].hash == FindHash(lev, o).value
  {
    if lev != [] {
      FindHashSpec(lev[1..], o);
      if lev[0].offset != o {
        if Lists(lev, o) {
          var i :| 0 <= i < |lev| && lev[i].offset == o;
          assert lev[1..][i - 1].offset == o;
        }
        if Lists(lev[1..], o) {
          var i :| 0 <= i < |lev[1..]| && lev[1..][i].offset == o && lev[1..][i].hash == FindHash(lev[1..], o).value;
          assert lev[i + 1].offset == o;
        }
      }
    }
  }

  /** On an honest path a verifier can only resolve a node to its true hash. */
  lemma {:induction false} ResolveHonest(hp: HashFn, subs: seq<seq<Hash>>, height: nat, path: Path, h: nat, o: nat)
    requires Uniform(subs, height) && Honest(hp, subs, height, path) && h < |path|
    ensures Resolve(hp, path, h, o).Some? ==> Resolve(hp, path, h, o).value == BlockNode(hp, subs, height, h, o)
    decreases h
  {
    FindHashSpec(path[h], o);
    match FindHash(path[h], o) {
      case Some(x) =>
        var i :| 0 <= i < |path[h]| && path[h][i].offset == o && path[h][i].hash == x;
        assert path[h][i] in path[h];
      case None =>
        if h > 0 {
          ResolveHonest(hp, subs, height, path, h - 1, 2 * o);
          ResolveHonest(hp, subs, height, path, h - 1, 2 * o + 1);
        }
    }
  }

  /** Pruning loses nothing: every node listed before it can still be resolved after it. */
  lemma {:induction false} PruneResolves(hp: HashFn, raw: Path, out: Path, h: nat, o: nat)
    requires Finished(raw, out) && h < |raw| && Lists(raw[h], o)
    ensures Resolve(hp, out, h, o).Some?
    decreases h
  {
    FinishedLists(raw, out, h, o);
    FindHashSpec(out[h], o);
    if Prunable(raw, h, o) {
      PruneResolves(hp, raw, out, h - 1, 2 * o);
      PruneResolves(hp, raw, out, h - 1, 2 * o + 1);
    }
  }

  lemma FinishedHonest(hp: HashFn, subs: seq<seq<Hash>>, height: nat, raw: Path, out: Path)
    requires Uniform(subs, height) && Honest(hp, subs, height, raw) && Finished(raw, out)
    ensures Honest(hp, subs, height, out)
  {
    forall h, e | 0 <= h < |out| && e in out[h]
      ensures e.hash == BlockNode(hp, subs, height, h, e.offset)
    {
      FinishedEntry(raw, out, h, e);
    }
  }

  /** Prune soundness: a listed node keeps its hash, whether it survives or is recomputed. */
  lemma PruneSound(hp: HashFn, subs: seq<seq<Hash>>, height: nat, raw: Path, out: Path, h: nat, o: nat)
    requires Uniform(subs, height) && Honest(hp, subs, height, raw) && Finished(raw, out)
    requires h < |raw| && Lists(raw[h], o)
    ensures Resolve(hp, out, h, o) == Some(BlockNode(hp, subs, height, h, o))
  {
    FinishedHonest(hp, subs, height, raw, out);
    PruneResolves(hp, raw, out, h, o);
    ResolveHonest(hp, subs, height, out, h, o);
  }

  // ---- Climbing to the root --------------------------------------------------------------------

  /** Before pruning, every level lists the sibling of g's ancestor. */
  ghost predicate Covers(raw: Path, g: nat) {
    forall k :: 0 <= k < |raw| ==> Lists(raw[k], Sib(Shr(g, k)))
  }

  lemma FinishedLength(raw: Path, out: Path)
    requires Finished(raw, out)
    ensures |out| == |raw|
  {}

  lemma SiblingListed(raw: Path, g: nat, h: nat)
    requires Covers(raw, g) && h < |raw|
    ensures Lists(raw[h], Sib(Shr(g, h)))
  {}

  lemma ClimbTop(hp: HashFn, subs: seq<seq<Hash>>, height: nat, path: Path, g: nat)
    requires Uniform(subs, height) && g < Pow2(|path|)
    ensures Climb(hp, path, |path|, Shr(g, |path|), BlockNode(hp, subs, height, |path|, Shr(g, |path|)))
         == Some(BlockNode(hp, subs, height, |path|, 0))
  {
    ShrBound(g, |path|, |path|);
  }

  lemma BlockStep(hp: HashFn, subs: seq<seq<Hash>>, height: nat, h: nat, o: nat)
    requires Uniform(subs, height)
    ensures BlockNode(hp, subs, height, h + 1, o / 2) ==
            Join(hp, o, BlockNode(hp, subs, height, h, o), BlockNode(hp, subs, height, h, Sib(o)))
  {}

  lemma ClimbStep(hp: HashFn, subs: seq<seq<Hash>>, height: nat, path: Path, g: nat, h: nat)
    requires Uniform(subs, height) && h < |path|
    requires Resolve(hp, path, h, Sib(Shr(g, h))) == Some(BlockNode(hp, subs, height, h, Sib(Shr(g, h))))
    ensures Climb(hp, path, h, Shr(g, h), BlockNode(hp, subs, height, h, Shr(g, h)))
         == Climb(hp, path, h + 1, Shr(g, h + 1), BlockNode(hp, subs, height, h + 1, Shr(g, h + 1)))
  {
    hide Resolve, Sib, Uniform, Join;
    BlockStep(hp, subs, height, h, Shr(g, h));
    assert Shr(g, h + 1) == Shr(g, h) / 2;
  }

  lemma {:induction false} ClimbFrom(hp: HashFn, subs: seq<seq<Hash>>, height: nat, raw: Path, out: Path, g: nat, h: nat)
    requires Uniform(subs, height) && Honest(hp, subs, height, raw) && Finished(raw, out)
    requires Covers(raw, g) && h <= |raw| && g < Pow2(|raw|)
    ensures Climb(hp, out, h, Shr(g, h), BlockNode(hp, subs, height, h, Shr(g, h)))
         == Some(BlockNode(hp, subs, height, |raw|, 0))
    decreases |raw| - h
  {
    hide *;
    FinishedLength(raw, out);
    if h == |raw| {
      ClimbTop(hp, subs, height, out, g);
    } else {
      SiblingListed(raw, g, h);
      PruneSound(hp, subs, height, raw, out, h, Sib(Shr(g, h)));
      ClimbStep(hp, subs, height, out, g, h);
      ClimbFrom(hp, subs, height, raw, out, g, h + 1);
    }
  }

  lemma {:induction false} FindTxidSpec(lev: Level, txid: Hash)
    ensures FindTxid(lev, txid).Some? <==> exists e :: e in lev && e.hash == txid
    ensures FindTxid(lev, txid).Some? ==> exists e :: e in lev && e.hash == txid && e.offset == FindTxid(lev, txid).value
  {
    if lev != [] {
      FindTxidSpec(lev[1..], txid);
      assert lev == [lev[0]] + lev[1..];
      assert forall e :: e in lev <==> e == lev[0] || e in lev[1..];
      assert lev[0] in lev;
    }
  }
}
