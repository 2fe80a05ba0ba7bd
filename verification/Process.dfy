/**
  Block processing for one token: what it loads, from stored fragments or, without a fragment store, from whole
  subtrees, and what its BUMP then proves.
 */
module Process {
  import opened Arith
  import opened Hashes
  import opened Bytes
  import opened Tree
  import opened Bump
  import opened BumpCodec
  import opened FragmentCodec
  import opened Emit
  import opened Canon
  import opened Validity
  import opened Worker
  import opened Jit
  import opened Fragments
  import opened Compound
  import opened Sorting
  import opened TokenIndex
  import opened Ledger
  import opened Cache
  import opened Pipeline
  import opened Registry

  /** What processing may assume of the ledger: the winner's block is coherent, and the sizes can be proved. */
  ghost predicate Ready(hp: HashFn, cfg: Config, s: State, w: nat, filed: seq<seq<Hash>>, leaves: seq<seq<Hash>>) {
    Provable(cfg) && Shaped(cfg, s) && w < cfg.miners && BlockCoherent(hp, cfg, s, w, filed, leaves)
  }

  ghost predicate FragmentResult(hp: HashFn, cfg: Config, s: State, w: nat, ti: nat, loaded: set<nat>, blockHeight: nat, bytes: Data)
    requires Shaped(cfg, s) && w < cfg.miners && cfg.subtrees > 0
  {
    exists pieces, data, out ::
      FromFragments(PlanFor(hp, cfg, s, w, loaded), TokenGlobals(cfg, s, w, ti, loaded), pieces, data, blockHeight, out, bytes)
  }

  ghost predicate SubtreeResult(hp: HashFn, cfg: Config, s: State, w: nat, ti: nat, loaded: set<nat>, blockHeight: nat, bytes: Data)
    requires Shaped(cfg, s) && w < cfg.miners && cfg.subtrees > 0
  {
    exists order, out ::
      FromSubtrees(PlanFor(hp, cfg, s, w, loaded), TokenGlobals(cfg, s, w, ti, loaded), order, blockHeight, out, bytes)
  }

  // ---- Fragment path -------------------------------------------------------------------------------

  /** The fragments of the subtrees in done are loaded. */
  ghost predicate Gathered(hp: HashFn, cfg: Config, s: State, w: nat, ti: nat, loaded: set<nat>,
                           pieces: seq<Piece>, data: seq<Data>, done: set<nat>)
    requires Shaped(cfg, s) && w < cfg.miners && cfg.subtrees > 0
  {
    var plan := PlanFor(hp, cfg, s, w, loaded);
    && StoredPieces(plan, pieces, data) && |pieces| == |done|
    && (forall i :: 0 <= i < |pieces| ==> pieces[i].si in done)
    && OwnedBy(plan, pieces) == TokenGlobals(cfg, s, w, ti, done)
  }

  lemma NoneGathered(hp: HashFn, cfg: Config, s: State, w: nat, filed: seq<seq<Hash>>, leaves: seq<seq<Hash>>, ti: nat, lost: set<nat>)
    requires Ready(hp, cfg, s, w, filed, leaves)
    ensures cfg.subtrees > 0 && Gathered(hp, cfg, s, w, ti, Loadable(cfg, s, w, ti, lost), [], [], {})
  {
    var loaded := Loadable(cfg, s, w, ti, lost);
    PlanGenuine(hp, cfg, s, w, filed, leaves, loaded);
    GenuineFacts(hp, leaves, PlanFor(hp, cfg, s, w, loaded));
    NoGlobals(cfg, s, w, ti);
  }

  lemma PieceAdded(plan: Plan, pieces: seq<Piece>, data: seq<Data>, p: Piece, d: Data)
    requires StoredPieces(plan, pieces, data) && ValidPiece(plan, p) && StoredPiece(plan, p, d)
    requires forall i :: 0 <= i < |pieces| ==> pieces[i].si != p.si
    ensures StoredPieces(plan, pieces + [p], data + [d])
    ensures OwnedBy(plan, pieces + [p]) == OwnedBy(plan, pieces) + Globals(PiecePositions(plan, p))
  {
    hide ValidPlan, ValidPiece, StoredPiece, PiecePositions;
    var more := pieces + [p];
    assert more[..|more| - 1] == pieces;
    forall i | 0 <= i < |more|
      ensures ValidPiece(plan, more[i]) && StoredPiece(plan, more[i], (data + [d])[i])
    {
      if i < |pieces| { assert more[i] == pieces[i] && (data + [d])[i] == data[i]; }
    }
  }

  lemma GatherStep(hp: HashFn, cfg: Config, s: State, w: nat, ti: nat, loaded: set<nat>,
                   pieces: seq<Piece>, data: seq<Data>, done: set<nat>, p: Piece, d: Data)
    requires Shaped(cfg, s) && w < cfg.miners && cfg.subtrees > 0 && ValidPlan(PlanFor(hp, cfg, s, w, loaded))
    requires Gathered(hp, cfg, s, w, ti, loaded, pieces, data, done) && p.si !in done
    requires ValidPiece(PlanFor(hp, cfg, s, w, loaded), p) && StoredPiece(PlanFor(hp, cfg, s, w, loaded), p, d)
    requires TokenGlobals(cfg, s, w, ti, done + {p.si}) ==
             TokenGlobals(cfg, s, w, ti, done) + Globals(Positions(cfg.hps, p.si, p.order))
    ensures Gathered(hp, cfg, s, w, ti, loaded, pieces + [p], data + [d], done + {p.si})
  {
    var plan := PlanFor(hp, cfg, s, w, loaded);
    assert plan.hps == cfg.hps;
    PieceAdded(plan, pieces, data, p, d);
    hide StoredPieces, TokenGlobals, Globals, PlanFor, OwnedBy, StoredPiece, ValidPiece, Positions, Shaped;
  }

  lemma OneGathered(hp: HashFn, cfg: Config, s: State, w: nat, filed: seq<seq<Hash>>, leaves: seq<seq<Hash>>, ti: nat, lost: set<nat>,
                    pieces: seq<Piece>, data: seq<Data>, done: set<nat>, si: nat) returns (p: Piece)
    requires Ready(hp, cfg, s, w, filed, leaves) && cfg.fragments && ti < cfg.businesses && cfg.subtrees > 0
    requires Gathered(hp, cfg, s, w, ti, Loadable(cfg, s, w, ti, lost), pieces, data, done)
    requires si !in done && si in Loadable(cfg, s, w, ti, lost)
    ensures (w, ti, si) in s.frags
    ensures Gathered(hp, cfg, s, w, ti, Loadable(cfg, s, w, ti, lost), pieces + [p], data + [s.frags[(w, ti, si)]], done + {si})
  {
    var loaded := Loadable(cfg, s, w, ti, lost);
    var plan := PlanFor(hp, cfg, s, w, loaded);
    assert plan.hps == cfg.hps;
    var order := StoredFragment(hp, cfg, s, w, filed, leaves, loaded, ti, si);
    p := Piece(si, order);
    GlobalsGrow(cfg, s, w, ti, done, si, order);
    hide *;
    GatherStep(hp, cfg, s, w, ti, loaded, pieces, data, done, p, s.frags[(w, ti, si)]);
  }

  /** Every subtree the index lists for a token is one of the block's. */
  lemma ListedInBlock(hp: HashFn, cfg: Config, s: State, w: nat, filed: seq<seq<Hash>>, leaves: seq<seq<Hash>>, ti: nat, lost: set<nat>, sis: seq<nat>)
    requires Ready(hp, cfg, s, w, filed, leaves)
    requires forall si :: si in sis <==> At(s.index[w], TokenName(ti), si) != []
    ensures forall si :: si in Loadable(cfg, s, w, ti, lost) <==> si in sis && si !in lost
  {
    hide At, TokenName, Coherent;
  }

  lemma BareBlock(plan: Plan, bare: Plan, data: seq<Data>)
    requires ValidPlan(plan) && bare == plan.(subtrees := map[]) && FragmentsInBlock(plan, data)
    ensures ValidPlan(bare) && FragmentsInBlock(bare, data)
  {
    hide Joined, Parse;
  }

  lemma FragmentsPlan(hp: HashFn, cfg: Config, s: State, w: nat, filed: seq<seq<Hash>>, leaves: seq<seq<Hash>>, ti: nat, lost: set<nat>,
                      pieces: seq<Piece>, data: seq<Data>, done: set<nat>, bare: Plan)
    requires Ready(hp, cfg, s, w, filed, leaves) && cfg.subtrees > 0
    requires Gathered(hp, cfg, s, w, ti, Loadable(cfg, s, w, ti, lost), pieces, data, done)
    requires done == Loadable(cfg, s, w, ti, lost)
    requires bare == PlanFor(hp, cfg, s, w, done).(subtrees := map[])
    ensures ValidPlan(bare) && FragmentsInBlock(bare, data) && AllParse(data) && |pieces| == |data| < U32
    ensures data == [] <==> done == {}
  {
    var plan := PlanFor(hp, cfg, s, w, done);
    SubsetSize(done, Below(cfg.subtrees));
    hide Loadable, Below, TokenGlobals, BlockCoherent;
    PlanGenuine(hp, cfg, s, w, filed, leaves, done);
    GenuineFacts(hp, leaves, plan);
    hide PlanFor, Genuine, ValidPiece, StoredPiece, Parse, Joined, OwnedBy, Shaped, TxidsInBlock;
    PiecesInBlock(hp, leaves, plan, pieces, data);
    BareBlock(plan, bare, data);
  }

  lemma ReadyFacts(hp: HashFn, cfg: Config, s: State, w: nat, filed: seq<seq<Hash>>, leaves: seq<seq<Hash>>)
    requires Ready(hp, cfg, s, w, filed, leaves)
    ensures Provable(cfg) && ValidConfig(cfg) && cfg.subtrees >= 2 && cfg.hps >= 2 && Shaped(cfg, s)
    ensures w < cfg.miners && BlockCoherent(hp, cfg, s, w, filed, leaves)
  {}

  lemma FragmentsBy(plan: Plan, owned: set<nat>, pieces: seq<Piece>, data: seq<Data>, blockHeight: nat, out: Path, bytes: Data)
    requires StoredPieces(plan, pieces, data) && |pieces| < U32 && OwnedBy(plan, pieces) == owned
    requires AssembledFromFragments(plan, data, blockHeight, out, bytes)
    ensures FromFragments(plan, owned, pieces, data, blockHeight, out, bytes)
  {}

  lemma ResultBy(hp: HashFn, cfg: Config, s: State, w: nat, ti: nat, loaded: set<nat>, pieces: seq<Piece>, data: seq<Data>,
                 blockHeight: nat, out: Path, bytes: Data)
    requires Shaped(cfg, s) && w < cfg.miners && cfg.subtrees > 0
    requires FromFragments(PlanFor(hp, cfg, s, w, loaded), TokenGlobals(cfg, s, w, ti, loaded), pieces, data, blockHeight, out, bytes)
    ensures FragmentResult(hp, cfg, s, w, ti, loaded, blockHeight, bytes)
  {
    hide FromFragments, PlanFor, TokenGlobals;
  }

  lemma FragmentsDoneToken(hp: HashFn, cfg: Config, s: State, w: nat, filed: seq<seq<Hash>>, leaves: seq<seq<Hash>>, ti: nat, loaded: set<nat>,
                           pieces: seq<Piece>, data: seq<Data>, bare: Plan, blockHeight: nat, out: Path, bytes: Data)
    requires Ready(hp, cfg, s, w, filed, leaves) && cfg.subtrees > 0 && blockHeight < U32
    requires forall si :: si in loaded ==> si < cfg.subtrees
    requires Gathered(hp, cfg, s, w, ti, loaded, pieces, data, loaded) && |pieces| < U32
    requires bare == PlanFor(hp, cfg, s, w, loaded).(subtrees := map[]) && ValidPlan(bare)
    requires AssembledFromFragments(bare, data, blockHeight, out, bytes)
    ensures |leaves| == cfg.subtrees && forall si :: 0 <= si < |leaves| ==> |leaves[si]| == cfg.hps
    ensures FragmentResult(hp, cfg, s, w, ti, loaded, blockHeight, bytes)
    ensures Proves(hp, cfg, s, w, leaves, ti, loaded, blockHeight, bytes)
  {
    var plan := PlanFor(hp, cfg, s, w, loaded);
    var owned := TokenGlobals(cfg, s, w, ti, loaded);
    assert SameShape(bare, plan) && OwnedBy(plan, pieces) == owned && StoredPieces(plan, pieces, data);
    hide *;
    ReadyFacts(hp, cfg, s, w, filed, leaves);
    PlanGenuine(hp, cfg, s, w, filed, leaves, loaded);
    GenuineFacts(hp, leaves, plan);
    SameAssembly(bare, plan, data, blockHeight, out, bytes);
    FragmentsBy(plan, owned, pieces, data, blockHeight, out, bytes);
    FragmentsProve(hp, cfg, s, w, filed, leaves, ti, loaded, pieces, data, blockHeight, out, bytes);
    ResultBy(hp, cfg, s, w, ti, loaded, pieces, data, blockHeight, out, bytes);
  }

  /** Proves, for the leaves of a block that is ready. */
  ghost predicate TokenProved(hp: HashFn, cfg: Config, s: State, w: nat, filed: seq<seq<Hash>>, leaves: seq<seq<Hash>>,
                              ti: nat, loaded: set<nat>, blockHeight: nat, bytes: Data)
  {
    && Ready(hp, cfg, s, w, filed, leaves) && |leaves| == cfg.subtrees
    && (forall si :: 0 <= si < |leaves| ==> |leaves[si]| == cfg.hps)
    && Proves(hp, cfg, s, w, leaves, ti, loaded, blockHeight, bytes)
  }

  lemma TokenBy(hp: HashFn, cfg: Config, s: State, w: nat, filed: seq<seq<Hash>>, leaves: seq<seq<Hash>>,
                ti: nat, loaded: set<nat>, blockHeight: nat, bytes: Data)
    requires Ready(hp, cfg, s, w, filed, leaves) && |leaves| == cfg.subtrees
    requires forall si :: 0 <= si < |leaves| ==> |leaves[si]| == cfg.hps
    requires ValidConfig(cfg) && Shaped(cfg, s) && w < cfg.miners && cfg.subtrees > 0
    requires Proves(hp, cfg, s, w, leaves, ti, loaded, blockHeight, bytes)
    ensures TokenProved(hp, cfg, s, w, filed, leaves, ti, loaded, blockHeight, bytes)
  {
    hide Ready, ValidConfig, Shaped, Proves;
  }

  lemma IndexReady(reg: Registry, m: nat)
    requires reg.Valid() && m < reg.cfg.miners
    ensures |reg.index| == reg.cfg.miners && NoEmptyLists(reg.index[m].entries)
    ensures reg.View().index[m] == reg.index[m].entries
  {
    assert reg.View().index[m] == reg.index[m].entries;
  }

  lemma NextListed(list: seq<nat>, i: nat)
    requires i < |list| && NoRepeats(list)
    ensures list[..i + 1] == list[..i] + [list[i]] && list[i] in list && list[i] !in list[..i]
  {}

  /** Every listed fragment was stored, so one that is missing is one that was lost. */
  lemma MissingFragment(hp: HashFn, cfg: Config, s: State, w: nat, filed: seq<seq<Hash>>, leaves: seq<seq<Hash>>, ti: nat, lost: set<nat>, si: nat)
    requires Ready(hp, cfg, s, w, filed, leaves) && cfg.fragments && ti < cfg.businesses
    requires (si in Loadable(cfg, s, w, ti, lost) <==> si !in lost)
    ensures si !in lost ==> (w, ti, si) in s.frags
  {
    hide FragmentFor, Indexed, Stored, PositionsOf;
    if si !in lost {
      assert Coherent(hp, cfg, s, w, si, filed[si], leaves[si]);
    }
  }

  lemma PlanFields(hp: HashFn, cfg: Config, s: State, w: nat, loaded: set<nat>, plan: Plan)
    requires Shaped(cfg, s) && w < cfg.miners && cfg.subtrees > 0
    requires plan == Plan(cfg.hps, Log2(cfg.hps), Log2(cfg.subtrees), map[], TopProofs(hp, s.roots[w]))
    ensures plan == PlanFor(hp, cfg, s, w, loaded).(subtrees := map[])
  {}

  lemma LoadableInBlock(cfg: Config, s: State, w: nat, ti: nat, lost: set<nat>)
    requires w < |s.index|
    ensures forall si :: si in Loadable(cfg, s, w, ti, lost) ==> si < cfg.subtrees
  {}

  /**
    One token from its stored fragments. `lost` are the subtrees whose fragment cannot be read; they are skipped.
    There is no result when nothing was loaded.
   */
  method TokenFromFragments(reg: Registry, winner: nat, topProofs: seq<seq<Hash>>, subtreeHeight: nat, topHeight: nat, ti: nat,
                            lost: set<nat>, blockHeight: nat, ws: WorkerState,
                            ghost filed: seq<seq<Hash>>, ghost leaves: seq<seq<Hash>>)
    returns (r: Option<Data>)
    requires reg.Valid() && reg.cfg.fragments && winner < reg.cfg.miners && reg.cfg.subtrees > 0
    requires Ready(reg.hp, reg.cfg, reg.View(), winner, filed, leaves) && ti < reg.cfg.businesses && blockHeight < U32
    requires topProofs == TopProofs(reg.hp, reg.roots[winner])
    requires subtreeHeight == Log2(reg.cfg.hps) && topHeight == Log2(reg.cfg.subtrees)
    modifies ws`levels, ws`outBuf
    ensures reg.View() == old(reg.View()) && reg.Valid()
    ensures var loaded := Loadable(reg.cfg, reg.View(), winner, ti, lost);
      && (r.Some? <==> loaded != {})
      && (r.Some? ==> TokenProved(reg.hp, reg.cfg, reg.View(), winner, filed, leaves, ti, loaded, blockHeight, r.value)
                      && FragmentResult(reg.hp, reg.cfg, reg.View(), winner, ti, loaded, blockHeight, r.value))
  {
    hide *;
    reg.ValidFacts();
    ghost var s := reg.View();
    ghost var loaded := Loadable(reg.cfg, s, winner, ti, lost);
    IndexReady(reg, winner);
    var subtreeIdxs := reg.index[winner].SubtreeIndices(TokenName(ti));
    ListedInBlock(reg.hp, reg.cfg, s, winner, filed, leaves, ti, lost, subtreeIdxs);
    NoneGathered(reg.hp, reg.cfg, s, winner, filed, leaves, ti, lost);
    var data: seq<Data> := [];
    ghost var pieces: seq<Piece> := [];
    ghost var done: set<nat> := {};
    for i := 0 to |subtreeIdxs|
      invariant forall si :: si in done <==> si in subtreeIdxs[..i] && si !in lost
      invariant Gathered(reg.hp, reg.cfg, s, winner, ti, loaded, pieces, data, done)
    {
      var si := subtreeIdxs[i];
      NextListed(subtreeIdxs, i);
      if si in lost || (winner, ti, si) !in reg.frags {
        MissingFragment(reg.hp, reg.cfg, s, winner, filed, leaves, ti, lost, si);
        continue;
      }
      ghost var p := OneGathered(reg.hp, reg.cfg, s, winner, filed, leaves, ti, lost, pieces, data, done, si);
      data := data + [reg.frags[(winner, ti, si)]];
      pieces := pieces + [p];
      done := done + {si};
    }
    assert subtreeIdxs[..|subtreeIdxs|] == subtreeIdxs;
    assert done == loaded;
    var plan := Plan(reg.cfg.hps, subtreeHeight, topHeight, map[], topProofs);
    PlanFields(reg.hp, reg.cfg, s, winner, loaded, plan);
    FragmentsPlan(reg.hp, reg.cfg, s, winner, filed, leaves, ti, lost, pieces, data, done, plan);
    if |data| == 0 {
      return None;
    }
    var bytes := AssembleTokenBumpFromFragments(blockHeight, data, plan, ws);
    ReadyFacts(reg.hp, reg.cfg, s, winner, filed, leaves);
    LoadableInBlock(reg.cfg, s, winner, ti, lost);
    FragmentsDoneToken(reg.hp, reg.cfg, s, winner, filed, leaves, ti, loaded, pieces, data, plan, blockHeight,
                       ws.levels[..plan.height + plan.topHeight], bytes.value);
    TokenBy(reg.hp, reg.cfg, s, winner, filed, leaves, ti, loaded, blockHeight, bytes.value);
    r := Some(bytes.value);
  }

  // ---- Fallback path -------------------------------------------------------------------------------

  /** The cache holds subtrees of miner w as stored. */
  ghost predicate CacheHolds(s: State, w: nat, c: Contents) {
    forall si :: si in c.entries ==> (w, si) in s.disk && c.entries[si] == CachedAt(s, w, si)
  }

  lemma HoldsPut(s: State, w: nat, maxSize: nat, c: Contents, si: nat)
    requires CacheHolds(s, w, c) && WellKept(maxSize, c) && (w, si) in s.disk
    ensures CacheHolds(s, w, PutIn(maxSize, c, si, CachedAt(s, w, si)))
  {
    hide CachedAt;
  }

  method AppendPositions(positions: seq<Pos>, hps: nat, si: nat, localIdxs: seq<nat>) returns (r: seq<Pos>)
    ensures r == positions + Positions(hps, si, localIdxs)
  {
    r := positions;
    for i := 0 to |localIdxs|
      invariant r == positions + Positions(hps, si, localIdxs[..i])
    {
      assert Positions(hps, si, localIdxs[..i + 1]) == Positions(hps, si, localIdxs[..i]) + [Pos(si, localIdxs[i], si * hps + localIdxs[i])];
      r := r + [Pos(si, localIdxs[i], si * hps + localIdxs[i])];
    }
    assert localIdxs[..|localIdxs|] == localIdxs;
  }

  ghost predicate PositionsIn(hps: nat, positions: seq<Pos>, done: set<nat>) {
    NoRepeats(positions) && forall i :: 0 <= i < |positions| ==> ValidPos(hps, positions[i]) && positions[i].si in done
  }

  /** The subtrees in done are loaded and their positions listed. */
  ghost predicate Collecting(cfg: Config, s: State, w: nat, ti: nat, positions: seq<Pos>, subtrees: map<nat, Cached>, done: set<nat>)
    requires w < |s.index|
  {
    && PositionsIn(cfg.hps, positions, done)
    && Globals(positions) == TokenGlobals(cfg, s, w, ti, done)
    && (positions == [] <==> done == {})
    && subtrees.Keys == done
    && (forall si :: si in done ==> (w, si) in s.disk && subtrees[si] == CachedAt(s, w, si))
  }

  lemma PositionsAppend(hps: nat, positions: seq<Pos>, done: set<nat>, si: nat, list: seq<nat>)
    requires PositionsIn(hps, positions, done) && si !in done && NoRepeats(list) && InSubtree(hps, list)
    ensures PositionsIn(hps, positions + Positions(hps, si, list), done + {si})
  {
    var more := Positions(hps, si, list);
    forall i, j | 0 <= i < j < |more|
      ensures more[i] != more[j]
    {
      assert list[i] != list[j];
    }
    forall e | e in positions
      ensures e !in more
    {
      var i :| 0 <= i < |positions| && positions[i] == e;
      assert e.si in done;
    }
    NoRepeatsAppend(positions, more);
  }

  lemma ListFacts(hp: HashFn, cfg: Config, s: State, w: nat, filed: seq<seq<Hash>>, leaves: seq<seq<Hash>>, ti: nat, si: nat)
    requires Ready(hp, cfg, s, w, filed, leaves) && ti < cfg.businesses && si < cfg.subtrees
    ensures (w, si) in s.disk && NoRepeats(PositionsOf(s, w, si, ti)) && InSubtree(cfg.hps, PositionsOf(s, w, si, ti))
  {
    hide PositionsOf, BytesHashes, IsStore, Root, Fragmented, TokenOf;
    assert Coherent(hp, cfg, s, w, si, filed[si], leaves[si]);
    var list := PositionsOf(s, w, si, ti);
    assert Filed(cfg.businesses, filed[si], list, ti);
    assert forall i :: 0 <= i < |list| ==> list[i] in list;
  }

  lemma OneCollected(hp: HashFn, cfg: Config, s: State, w: nat, filed: seq<seq<Hash>>, leaves: seq<seq<Hash>>, ti: nat,
                     positions: seq<Pos>, subtrees: map<nat, Cached>, done: set<nat>, si: nat)
    requires Ready(hp, cfg, s, w, filed, leaves) && ti < cfg.businesses
    requires Collecting(cfg, s, w, ti, positions, subtrees, done)
    requires si !in done && si in Loadable(cfg, s, w, ti, {})
    ensures (w, si) in s.disk
    ensures Collecting(cfg, s, w, ti, positions + Positions(cfg.hps, si, PositionsOf(s, w, si, ti)),
                       subtrees[si := CachedAt(s, w, si)], done + {si})
  {
    var list := PositionsOf(s, w, si, ti);
    ListFacts(hp, cfg, s, w, filed, leaves, ti, si);
    GlobalsGrow(cfg, s, w, ti, done, si, list);
    PositionsAppend(cfg.hps, positions, done, si, list);
    GlobalsAppend(positions, Positions(cfg.hps, si, list));
    assert |Positions(cfg.hps, si, list)| == |list| > 0;
    hide PositionsIn, Globals, TokenGlobals, CachedAt, Ready, Positions, Loadable, InSubtree, NoRepeats;
  }

  lemma NoneCollecting(cfg: Config, s: State, w: nat, ti: nat)
    requires w < |s.index|
    ensures Collecting(cfg, s, w, ti, [], map[], {})
  {
    NoGlobals(cfg, s, w, ti);
  }

  lemma CollectedPlan(hp: HashFn, cfg: Config, s: State, w: nat, filed: seq<seq<Hash>>, leaves: seq<seq<Hash>>, ti: nat, loaded: set<nat>,
                      positions: seq<Pos>, plan: Plan)
    requires Ready(hp, cfg, s, w, filed, leaves) && (forall si :: si in loaded ==> si < cfg.subtrees)
    requires Collecting(cfg, s, w, ti, positions, plan.subtrees, loaded)
    requires plan.hps == cfg.hps && plan.height == Log2(cfg.hps) && plan.topHeight == Log2(cfg.subtrees)
    requires plan.topProofs == TopProofs(hp, s.roots[w])
    ensures plan == PlanFor(hp, cfg, s, w, loaded) && ValidPlan(plan) && ValidPositions(plan, positions)
  {
    assert plan.subtrees == PlanFor(hp, cfg, s, w, loaded).subtrees by {
      hide CachedAt;
    }
    hide CachedAt, BlockCoherent, Globals, TokenGlobals, NoRepeats;
    PlanGenuine(hp, cfg, s, w, filed, leaves, loaded);
    GenuineFacts(hp, leaves, plan);
  }

  lemma SamePositions(a: seq<Pos>, b: seq<Pos>)
    requires multiset(a) == multiset(b)
    ensures Globals(a) == Globals(b)
  {
    forall g
      ensures g in Globals(a) <==> g in Globals(b)
    {
      if g in Globals(a) {
        var i :| 0 <= i < |a| && a[i].g == g;
        PermutationMember(a, b, a[i]);
        var j :| 0 <= j < |b| && b[j] == a[i];
        assert b[j].g == g;
      }
      if g in Globals(b) {
        var i :| 0 <= i < |b| && b[i].g == g;
        PermutationMember(a, b, b[i]);
        var j :| 0 <= j < |a| && a[j] == b[i];
        assert a[j].g == g;
      }
    }
  }

  lemma OrderedToken(hp: HashFn, cfg: Config, s: State, w: nat, filed: seq<seq<Hash>>, leaves: seq<seq<Hash>>, ti: nat, loaded: set<nat>,
                     positions: seq<Pos>, plan: Plan, order: seq<Pos>, blockHeight: nat, out: Path, bytes: Data)
    requires Ready(hp, cfg, s, w, filed, leaves)
    requires Collecting(cfg, s, w, ti, positions, plan.subtrees, loaded) && ValidPositions(plan, positions)
    requires multiset(order) == multiset(positions) && Ordered(order)
    requires Assembled(plan, order, blockHeight, out, bytes)
    ensures FromSubtrees(plan, TokenGlobals(cfg, s, w, ti, loaded), order, blockHeight, out, bytes)
  {
    hide Assembled, Ready, CachedAt, TokenGlobals;
    SortedPositions(plan, positions, order);
    PermutationNoRepeats(positions, order);
    DistinctIncreasing(plan, order);
    SamePositions(positions, order);
    forall i | 0 <= i < |order|
      ensures order[i].si in plan.subtrees
    {
      PermutationMember(positions, order, order[i]);
    }
  }

  lemma SubtreeResultBy(hp: HashFn, cfg: Config, s: State, w: nat, ti: nat, loaded: set<nat>, order: seq<Pos>,
                        blockHeight: nat, out: Path, bytes: Data)
    requires Shaped(cfg, s) && w < cfg.miners && cfg.subtrees > 0
    requires FromSubtrees(PlanFor(hp, cfg, s, w, loaded), TokenGlobals(cfg, s, w, ti, loaded), order, blockHeight, out, bytes)
    ensures SubtreeResult(hp, cfg, s, w, ti, loaded, blockHeight, bytes)
  {
    hide FromSubtrees, PlanFor, TokenGlobals;
  }

  lemma SubtreesDone(hp: HashFn, cfg: Config, s: State, w: nat, filed: seq<seq<Hash>>, leaves: seq<seq<Hash>>, ti: nat, loaded: set<nat>,
                     positions: seq<Pos>, plan: Plan, order: seq<Pos>, blockHeight: nat, out: Path, bytes: Data)
    requires Ready(hp, cfg, s, w, filed, leaves) && blockHeight < U32 && (forall si :: si in loaded ==> si < cfg.subtrees)
    requires Shaped(cfg, s) && w < cfg.miners && cfg.subtrees > 0 && plan == PlanFor(hp, cfg, s, w, loaded)
    requires Collecting(cfg, s, w, ti, positions, plan.subtrees, loaded) && ValidPositions(plan, positions)
    requires multiset(order) == multiset(positions) && Ordered(order)
    requires Assembled(plan, order, blockHeight, out, bytes)
    ensures TokenProved(hp, cfg, s, w, filed, leaves, ti, loaded, blockHeight, bytes)
    ensures SubtreeResult(hp, cfg, s, w, ti, loaded, blockHeight, bytes)
  {
    hide *;
    ReadyFacts(hp, cfg, s, w, filed, leaves);
    OrderedToken(hp, cfg, s, w, filed, leaves, ti, loaded, positions, plan, order, blockHeight, out, bytes);
    SubtreesProve(hp, cfg, s, w, filed, leaves, ti, loaded, order, blockHeight, out, bytes);
    TokenBy(hp, cfg, s, w, filed, leaves, ti, loaded, blockHeight, bytes);
    SubtreeResultBy(hp, cfg, s, w, ti, loaded, order, blockHeight, out, bytes);
  }

  lemma CollectingEmpty(cfg: Config, s: State, w: nat, ti: nat, positions: seq<Pos>, subtrees: map<nat, Cached>, done: set<nat>)
    requires w < |s.index| && Collecting(cfg, s, w, ti, positions, subtrees, done)
    ensures positions == [] <==> done == {}
  {}

  lemma StillReady(reg: Registry, s: State)
    requires reg.View() == s && ValidConfig(reg.cfg) && Shaped(reg.cfg, s) && reg.Separate()
    ensures reg.Valid()
  {}

  /** Every listed subtree was stored. */
  lemma ListedStored(hp: HashFn, cfg: Config, s: State, w: nat, filed: seq<seq<Hash>>, leaves: seq<seq<Hash>>, ti: nat, si: nat)
    requires Ready(hp, cfg, s, w, filed, leaves) && ti < cfg.businesses && si in Loadable(cfg, s, w, ti, {})
    ensures (w, si) in s.disk
  {
    hide FragmentFor, Indexed, Fragmented, PositionsOf;
    assert Coherent(hp, cfg, s, w, si, filed[si], leaves[si]);
  }

  // ---- The two together ----------------------------------------------------------------------------

  /**
    With the same subtrees loaded the two modes give a token paths with the same entries at every level, and the
    same bytes when it owns no whole sibling pair.
   */
  lemma ResultsAgree(hp: HashFn, cfg: Config, s: State, w: nat, filed: seq<seq<Hash>>, leaves: seq<seq<Hash>>, ti: nat,
                     loaded: set<nat>, blockHeight: nat, fragBytes: Data, jitBytes: Data)
    requires Ready(hp, cfg, s, w, filed, leaves) && (forall si :: si in loaded ==> si < cfg.subtrees)
    requires FragmentResult(hp, cfg, s, w, ti, loaded, blockHeight, fragBytes)
    requires SubtreeResult(hp, cfg, s, w, ti, loaded, blockHeight, jitBytes)
    ensures exists frag: Path, jit: Path ::
      && fragBytes == BumpBytes(blockHeight, frag) && jitBytes == BumpBytes(blockHeight, jit)
      && |frag| == |jit| && forall h :: 0 <= h < |jit| ==> multiset(jit[h]) == multiset(frag[h])
    ensures NoPairWhollyOwned(TokenGlobals(cfg, s, w, ti, loaded)) ==> jitBytes == fragBytes
  {
    var plan, owned := PlanFor(hp, cfg, s, w, loaded), TokenGlobals(cfg, s, w, ti, loaded);
    var pieces: seq<Piece>, data: seq<Data>, frag: Path :| FromFragments(plan, owned, pieces, data, blockHeight, frag, fragBytes);
    var order: seq<Pos>, jit: Path :| FromSubtrees(plan, owned, order, blockHeight, jit, jitBytes);
    assert fragBytes == BumpBytes(blockHeight, frag) && jitBytes == BumpBytes(blockHeight, jit);
    hide *;
    ReadyFacts(hp, cfg, s, w, filed, leaves);
    ModesAgree(hp, cfg, s, w, filed, leaves, ti, loaded, blockHeight, order, jit, jitBytes, pieces, data, frag, fragBytes);
  }

  /**
    What a token may load when the reads made for it fail in the subtrees `lost`: all the others, and a lost one only
    from the cache, where the read of another token may have left it.
   */
  ghost predicate LoadedWithin(cfg: Config, s: State, w: nat, ti: nat, lost: set<nat>, loaded: set<nat>)
    requires w < |s.index|
  {
    Loadable(cfg, s, w, ti, lost) <= loaded <= Loadable(cfg, s, w, ti, {})
  }

  /** ... in the mode in use: fragments are not cached. */
  ghost predicate MayLoad(cfg: Config, s: State, w: nat, ti: nat, lost: set<nat>, loaded: set<nat>)
    requires w < |s.index|
  {
    LoadedWithin(cfg, s, w, ti, lost, loaded) && (cfg.fragments ==> loaded == Loadable(cfg, s, w, ti, lost))
  }

  lemma WithinBlock(cfg: Config, s: State, w: nat, ti: nat, lost: set<nat>, loaded: set<nat>)
    requires w < |s.index| && LoadedWithin(cfg, s, w, ti, lost, loaded)
    ensures forall si :: si in loaded ==> si < cfg.subtrees
  {}

  lemma LoadedFragments(cfg: Config, s: State, w: nat, ti: nat, lost: set<nat>)
    requires w < |s.index|
    ensures MayLoad(cfg, s, w, ti, lost, Loadable(cfg, s, w, ti, lost))
  {}

  lemma LoadedSubtrees(cfg: Config, s: State, w: nat, ti: nat, lost: set<nat>, loaded: set<nat>)
    requires w < |s.index| && LoadedWithin(cfg, s, w, ti, lost, loaded) && !cfg.fragments
    ensures MayLoad(cfg, s, w, ti, lost, loaded)
  {}

  /** A finished token's BUMP, made if anything was loaded, proves what was loaded. */
  ghost predicate BumpMade(hp: HashFn, cfg: Config, s: State, w: nat, filed: seq<seq<Hash>>, leaves: seq<seq<Hash>>,
                           blockHeight: nat, bumps: map<nat, Data>, ti: nat, loaded: set<nat>)
  {
    && (ti in bumps <==> loaded != {})
    && (ti in bumps ==> TokenProved(hp, cfg, s, w, filed, leaves, ti, loaded, blockHeight, bumps[ti]))
  }

  /** Each token of `loads` loaded the subtrees it names, as the reads allowed, and only these tokens have a BUMP. */
  ghost predicate BumpsMade(hp: HashFn, cfg: Config, s: State, w: nat, filed: seq<seq<Hash>>, leaves: seq<seq<Hash>>,
                            lost: nat -> set<nat>, blockHeight: nat, bumps: map<nat, Data>, loads: map<nat, set<nat>>)
    requires w < |s.index|
  {
    && bumps.Keys <= loads.Keys
    && (forall ti :: ti in loads ==> MayLoad(cfg, s, w, ti, lost(ti), loads[ti]))
    && (forall ti :: ti in loads ==> BumpMade(hp, cfg, s, w, filed, leaves, blockHeight, bumps, ti, loads[ti]))
  }

  lemma RootsCount(cfg: Config, s: State, w: nat)
    requires Shaped(cfg, s) && w < cfg.miners
    ensures |s.roots| == |s.index| == cfg.miners && |s.roots[w]| == cfg.subtrees
  {}

  lemma TopProofsBy(hp: HashFn, roots: seq<Hash>, proofs: seq<seq<Hash>>)
    requires |roots| > 0 && |proofs| == |roots| && forall i :: 0 <= i < |roots| ==> proofs[i] == ProofOf(hp, roots, i)
    ensures proofs == TopProofs(hp, roots)
  {}

  lemma NoBumps(hp: HashFn, cfg: Config, s: State, w: nat, filed: seq<seq<Hash>>, leaves: seq<seq<Hash>>,
                lost: nat -> set<nat>, blockHeight: nat)
    requires w < |s.index|
    ensures BumpsMade(hp, cfg, s, w, filed, leaves, lost, blockHeight, map[], map[])
  {}

  lemma OneBump(hp: HashFn, cfg: Config, s: State, w: nat, filed: seq<seq<Hash>>, leaves: seq<seq<Hash>>,
                lost: nat -> set<nat>, blockHeight: nat, bumps: map<nat, Data>, loads: map<nat, set<nat>>,
                ti: nat, loaded: set<nat>, r: Option<Data>)
    requires w < |s.index| && ti !in loads && MayLoad(cfg, s, w, ti, lost(ti), loaded)
    requires BumpsMade(hp, cfg, s, w, filed, leaves, lost, blockHeight, bumps, loads)
    requires r.Some? <==> loaded != {}
    requires r.Some? ==> TokenProved(hp, cfg, s, w, filed, leaves, ti, loaded, blockHeight, r.value)
    ensures BumpsMade(hp, cfg, s, w, filed, leaves, lost, blockHeight,
                      if r.Some? then bumps[ti := r.value] else bumps, loads[ti := loaded])
  {
    hide MayLoad, TokenProved;
    var more := if r.Some? then bumps[ti := r.value] else bumps;
    assert BumpMade(hp, cfg, s, w, filed, leaves, blockHeight, more, ti, loaded);
    forall other | other in loads
      ensures BumpMade(hp, cfg, s, w, filed, leaves, blockHeight, more, other, loads[other])
    {
      assert BumpMade(hp, cfg, s, w, filed, leaves, blockHeight, bumps, other, loads[other]);
    }
  }
}
