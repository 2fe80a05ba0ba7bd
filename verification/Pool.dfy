/**
  The worker pool of block processing. Workers take tokens from one queue and share the subtree cache; the scheduler
  may pick any of them at every lookup, disk read and put, so the result holds for every interleaving.
 */
module Pool {
  import opened Arith
  import opened Hashes
  import opened Bytes
  import opened MerkleStore
  import opened Emit
  import opened Worker
  import opened Jit
  import opened Fragments
  import opened Sorting
  import opened TokenIndex
  import opened Ledger
  import opened Cache
  import opened Pipeline
  import opened Registry
  import opened Process

  /**
    What a worker is at: the token it took, the subtrees listed for it, how many it is through with, what it has
    gathered from them, and where it is in loading the next one.
   */
  datatype Job = Free | Working(ti: nat, sis: seq<nat>, at: nat, positions: seq<Pos>, subtrees: map<nat, Cached>, phase: Cache.Phase)

  ghost predicate Listing(s: State, w: nat, ti: nat, sis: seq<nat>)
    requires w < |s.index|
  {
    NoRepeats(sis) && forall si :: si in sis <==> At(s.index[w], TokenName(ti), si) != []
  }

  ghost function NotLost(sis: seq<nat>, lost: set<nat>): set<nat> {
    set si | si in sis && si !in lost
  }

  /** A worker past a miss waits for the subtree it is at; one that holds a subtree read it from disk as stored. */
  ghost predicate PhaseOk(s: State, w: nat, sis: seq<nat>, at: nat, phase: Cache.Phase) {
    match phase
    case Idle => true
    case Missed(si) => at < |sis| && si == sis[at]
    case Holding(si, cs) => at < |sis| && si == sis[at] && (w, si) in s.disk && cs == CachedAt(s, w, si)
  }

  /** Of the first `at` listed subtrees, the loaded ones include all but the lost. */
  ghost predicate Through(sis: seq<nat>, at: nat, lost: set<nat>, loaded: set<nat>)
    requires at <= |sis|
  {
    NotLost(sis[..at], lost) <= loaded <= NotLost(sis[..at], {})
  }

  /** What a job has gathered is what the subtrees it loaded hold; `lost` are, per token, the reads that fail. */
  ghost predicate JobOk(cfg: Config, s: State, w: nat, lost: nat -> set<nat>, job: Job)
    requires w < |s.index|
  {
    job.Working? ==>
      && job.ti < cfg.businesses && job.at <= |job.sis| && Listing(s, w, job.ti, job.sis)
      && PhaseOk(s, w, job.sis, job.at, job.phase)
      && Collecting(cfg, s, w, job.ti, job.positions, job.subtrees, job.subtrees.Keys)
      && Through(job.sis, job.at, lost(job.ti), job.subtrees.Keys)
  }

  /** Steps a job still has before it: three a subtree, and the assembly. */
  function Pending(job: Job): nat {
    if job.Free? || job.at > |job.sis| then 0
    else if job.at == |job.sis| then 1
    else 3 * (|job.sis| - job.at) + 1 - (match job.phase case Idle => 0 case Missed(_) => 1 case Holding(_, _) => 2)
  }

  function TotalPending(jobs: seq<Job>): nat {
    if jobs == [] then 0 else TotalPending(jobs[..|jobs| - 1]) + Pending(jobs[|jobs| - 1])
  }

  lemma {:induction false} PendingUpdate(jobs: seq<Job>, j: nat, job: Job)
    requires j < |jobs|
    ensures TotalPending(jobs[j := job]) == TotalPending(jobs) - Pending(jobs[j]) + Pending(job)
  {
    hide Pending;
    var after := jobs[j := job];
    if j == |jobs| - 1 {
      assert after[..j] == jobs[..j];
    } else {
      assert after[..|jobs| - 1] == jobs[..|jobs| - 1][j := job];
      PendingUpdate(jobs[..|jobs| - 1], j, job);
    }
  }

  // ---- One step of a job ---------------------------------------------------------------------------

  lemma ThroughNext(sis: seq<nat>, at: nat, lost: set<nat>, loaded: set<nat>)
    requires at < |sis| && NoRepeats(sis) && Through(sis, at, lost, loaded)
    ensures sis[at] in lost ==> Through(sis, at + 1, lost, loaded)
    ensures Through(sis, at + 1, lost, loaded + {sis[at]})
    ensures sis[at] !in loaded
  {
    assert sis[..at + 1] == sis[..at] + [sis[at]];
  }

  lemma JobFacts(cfg: Config, s: State, w: nat, lost: nat -> set<nat>, job: Job)
    requires w < |s.index| && JobOk(cfg, s, w, lost, job) && job.Working?
    ensures job.ti < cfg.businesses && job.at <= |job.sis| && Listing(s, w, job.ti, job.sis) && NoRepeats(job.sis)
    ensures PhaseOk(s, w, job.sis, job.at, job.phase)
    ensures Collecting(cfg, s, w, job.ti, job.positions, job.subtrees, job.subtrees.Keys)
    ensures Through(job.sis, job.at, lost(job.ti), job.subtrees.Keys)
  {}

  lemma JobBy(cfg: Config, s: State, w: nat, lost: nat -> set<nat>, job: Job)
    requires w < |s.index| && job.Working? && job.ti < cfg.businesses && job.at <= |job.sis|
    requires Listing(s, w, job.ti, job.sis) && PhaseOk(s, w, job.sis, job.at, job.phase)
    requires Collecting(cfg, s, w, job.ti, job.positions, job.subtrees, job.subtrees.Keys)
    requires Through(job.sis, job.at, lost(job.ti), job.subtrees.Keys)
    ensures JobOk(cfg, s, w, lost, job)
  {}

  lemma IdleOk(s: State, w: nat, sis: seq<nat>, at: nat)
    ensures PhaseOk(s, w, sis, at, Idle)
  {}

  lemma ListingLoadable(hp: HashFn, cfg: Config, s: State, w: nat, filed: seq<seq<Hash>>, leaves: seq<seq<Hash>>,
                        ti: nat, lost: set<nat>, sis: seq<nat>)
    requires Ready(hp, cfg, s, w, filed, leaves) && w < |s.index| && Listing(s, w, ti, sis)
    ensures Loadable(cfg, s, w, ti, lost) == NotLost(sis, lost)
  {
    ListedInBlock(hp, cfg, s, w, filed, leaves, ti, lost, sis);
    hide Listing, Loadable, Ready;
  }

  /** A listed subtree is one the token could load, if the reads do not fail, and is on disk. */
  lemma ListedHere(hp: HashFn, cfg: Config, s: State, w: nat, filed: seq<seq<Hash>>, leaves: seq<seq<Hash>>,
                   ti: nat, sis: seq<nat>, si: nat)
    requires Ready(hp, cfg, s, w, filed, leaves) && w < |s.index| && Listing(s, w, ti, sis) && si in sis && ti < cfg.businesses
    ensures si in Loadable(cfg, s, w, ti, {}) && (w, si) in s.disk
  {
    assert si in NotLost(sis, {});
    hide *;
    ListingLoadable(hp, cfg, s, w, filed, leaves, ti, {}, sis);
    ListedStored(hp, cfg, s, w, filed, leaves, ti, si);
  }

  /** A new job has gathered nothing. */
  lemma JobTaken(cfg: Config, s: State, w: nat, lost: nat -> set<nat>, ti: nat, sis: seq<nat>)
    requires w < |s.index| && ti < cfg.businesses && Listing(s, w, ti, sis)
    ensures JobOk(cfg, s, w, lost, Working(ti, sis, 0, [], map[], Idle))
  {
    NoneCollecting(cfg, s, w, ti);
    var none: map<nat, Cached> := map[];
    assert none.Keys == {};
    assert Through(sis, 0, lost(ti), {});
    hide Listing, Collecting, Through;
  }

  /** The subtree's read failed: the job goes on to the next. */
  lemma JobSkips(cfg: Config, s: State, w: nat, lost: nat -> set<nat>, job: Job)
    requires w < |s.index| && JobOk(cfg, s, w, lost, job) && job.Working? && job.at < |job.sis| && job.sis[job.at] in lost(job.ti)
    ensures JobOk(cfg, s, w, lost, job.(at := job.at + 1, phase := Idle))
  {
    hide *;
    JobFacts(cfg, s, w, lost, job);
    ThroughNext(job.sis, job.at, lost(job.ti), job.subtrees.Keys);
    IdleOk(s, w, job.sis, job.at + 1);
    JobBy(cfg, s, w, lost, job.(at := job.at + 1, phase := Idle));
  }

  ghost function Gained(cfg: Config, s: State, w: nat, job: Job, cs: Cached): Job
    requires w < |s.index| && job.Working? && job.at < |job.sis|
  {
    var si := job.sis[job.at];
    Working(job.ti, job.sis, job.at + 1, job.positions + Positions(cfg.hps, si, PositionsOf(s, w, si, job.ti)),
            job.subtrees[si := cs], Idle)
  }

  lemma GainedParts(cfg: Config, s: State, w: nat, job: Job, cs: Cached)
    requires w < |s.index| && job.Working? && job.at < |job.sis|
    ensures var si, next := job.sis[job.at], Gained(cfg, s, w, job, cs);
      && next.Working? && next.ti == job.ti && next.sis == job.sis && next.at == job.at + 1 && next.phase == Idle
      && next.positions == job.positions + Positions(cfg.hps, si, PositionsOf(s, w, si, job.ti))
      && next.subtrees == job.subtrees[si := cs]
  {}

  lemma KeysGrow(m: map<nat, Cached>, si: nat, cs: Cached)
    ensures m[si := cs].Keys == m.Keys + {si}
  {}

  lemma GainedOk(cfg: Config, s: State, w: nat, lost: nat -> set<nat>, job: Job, cs: Cached, si: nat)
    requires w < |s.index| && job.Working? && job.at < |job.sis| && job.sis[job.at] == si
    requires job.ti < cfg.businesses && Listing(s, w, job.ti, job.sis)
    requires Collecting(cfg, s, w, job.ti, job.positions + Positions(cfg.hps, si, PositionsOf(s, w, si, job.ti)),
                        job.subtrees[si := cs], job.subtrees.Keys + {si})
    requires Through(job.sis, job.at + 1, lost(job.ti), job.subtrees.Keys + {si})
    ensures JobOk(cfg, s, w, lost, Gained(cfg, s, w, job, cs))
  {
    hide *;
    KeysGrow(job.subtrees, si, cs);
    GainedParts(cfg, s, w, job, cs);
    IdleOk(s, w, job.sis, job.at + 1);
    JobBy(cfg, s, w, lost, Gained(cfg, s, w, job, cs));
  }

  /** The subtree is there as stored: its positions are added. */
  lemma JobGains(hp: HashFn, cfg: Config, s: State, w: nat, filed: seq<seq<Hash>>, leaves: seq<seq<Hash>>, lost: nat -> set<nat>,
                 job: Job, cs: Cached, si: nat)
    requires w < |s.index| && job.Working? && job.at < |job.sis| && job.sis[job.at] == si
    requires (w, si) in s.disk && cs == CachedAt(s, w, si) && JobOk(cfg, s, w, lost, job)
    requires Ready(hp, cfg, s, w, filed, leaves)
    ensures JobOk(cfg, s, w, lost, Gained(cfg, s, w, job, cs))
  {
    var loaded := job.subtrees.Keys;
    hide *;
    JobFacts(cfg, s, w, lost, job);
    ListedHere(hp, cfg, s, w, filed, leaves, job.ti, job.sis, si);
    ThroughNext(job.sis, job.at, lost(job.ti), loaded);
    OneCollected(hp, cfg, s, w, filed, leaves, job.ti, job.positions, job.subtrees, loaded, si);
    GainedOk(cfg, s, w, lost, job, cs, si);
  }

  lemma JobWaits(cfg: Config, s: State, w: nat, lost: nat -> set<nat>, job: Job, phase: Cache.Phase)
    requires w < |s.index| && JobOk(cfg, s, w, lost, job) && job.Working?
    requires PhaseOk(s, w, job.sis, job.at, phase)
    ensures JobOk(cfg, s, w, lost, job.(phase := phase))
  {
    hide PhaseOk, Collecting, Listing, Through;
  }

  /** The next token of the queue and the subtrees it has positions in. */
  method TakeToken(reg: Registry, winner: nat, ti: nat, ghost lost: nat -> set<nat>) returns (job: Job)
    requires reg.Valid() && winner < reg.cfg.miners && ti < reg.cfg.businesses
    ensures winner < |reg.View().index|
    ensures job.Working? && job.ti == ti && JobOk(reg.cfg, reg.View(), winner, lost, job)
  {
    reg.ValidFacts();
    IndexReady(reg, winner);
    hide JobOk, TokenName, At, NoRepeats;
    var subtreeIdxs := reg.index[winner].SubtreeIndices(TokenName(ti));
    job := Working(ti, subtreeIdxs, 0, [], map[], Idle);
    JobTaken(reg.cfg, reg.View(), winner, lost, ti, subtreeIdxs);
  }

  /** The shared cache holds subtrees as stored, within its bound. */
  ghost predicate CacheOk(s: State, w: nat, maxSize: nat, c: Contents) {
    WellKept(maxSize, c) && CacheHolds(s, w, c)
  }

  lemma CacheHit(s: State, w: nat, maxSize: nat, c: Contents, si: nat)
    requires CacheOk(s, w, maxSize, c) && si in c.entries
    ensures (w, si) in s.disk && c.entries[si] == CachedAt(s, w, si)
  {}

  lemma CachePut(s: State, w: nat, maxSize: nat, c: Contents, si: nat)
    requires CacheOk(s, w, maxSize, c) && (w, si) in s.disk
    ensures WellKept(maxSize, c) && CacheOk(s, w, maxSize, PutIn(maxSize, c, si, CachedAt(s, w, si)))
  {
    HoldsPut(s, w, maxSize, c, si);
    PutKept(maxSize, c, si, CachedAt(s, w, si));
    hide WellKept, CacheHolds, PutIn;
  }

  lemma ReadAsStored(s: State, w: nat, si: nat)
    requires (w, si) in s.disk
    ensures CachedAt(s, w, si) == Cached(BytesHashes(s.disk[(w, si)].0), BytesHashes(s.disk[(w, si)].1))
  {}

  /** A subtree's positions joined to the job's, once it is loaded. */
  method Gain(reg: Registry, winner: nat, job: Job, cs: Cached) returns (next: Job)
    requires reg.Valid() && winner < reg.cfg.miners && job.Working? && job.at < |job.sis|
    ensures winner < |reg.View().index| && next == Gained(reg.cfg, reg.View(), winner, job, cs)
  {
    reg.ValidFacts();
    IndexReady(reg, winner);
    hide At, TokenName, NoRepeats;
    var si := job.sis[job.at];
    var localIdxs := reg.index[winner].Get(TokenName(job.ti), si);
    var positions := AppendPositions(job.positions, reg.cfg.hps, si, localIdxs);
    next := Working(job.ti, job.sis, job.at + 1, positions, job.subtrees[si := cs], Idle);
  }

  lemma PendingSteps(job: Job)
    requires job.Working? && job.at < |job.sis|
    ensures Pending(job.(at := job.at + 1, phase := Idle)) < Pending(job)
    ensures forall next: Job :: next.Working? && next.sis == job.sis && next.at == job.at + 1 && next.phase == Idle ==>
      Pending(next) < Pending(job)
    ensures job.phase.Idle? ==> forall si :: Pending(job.(phase := Missed(si))) < Pending(job)
    ensures job.phase.Missed? ==> forall si, cs :: Pending(job.(phase := Holding(si, cs))) < Pending(job)
  {}

  lemma CacheEntries(cache: SubtreeCache)
    ensures cache.View().entries == cache.entries
  {}

  lemma AtMissed(s: State, w: nat, sis: seq<nat>, at: nat)
    requires at < |sis|
    ensures PhaseOk(s, w, sis, at, Missed(sis[at]))
  {}

  lemma AtHolding(s: State, w: nat, sis: seq<nat>, at: nat, cs: Cached)
    requires at < |sis| && (w, sis[at]) in s.disk && cs == CachedAt(s, w, sis[at])
    ensures PhaseOk(s, w, sis, at, Holding(sis[at], cs))
  {}

  lemma HeldAsStored(s: State, w: nat, job: Job)
    requires job.Working? && job.phase.Holding? && PhaseOk(s, w, job.sis, job.at, job.phase)
    ensures job.at < |job.sis| && job.phase.si == job.sis[job.at]
    ensures (w, job.sis[job.at]) in s.disk && job.phase.cs == CachedAt(s, w, job.sis[job.at])
  {}

  /**
    One step of a load: a lookup in the cache, the read from disk after a miss, or the put of what was read. The read
    fails if the subtree is among those lost for the token; a hit is served whatever reads fail.
   */
  method LoadStep(reg: Registry, winner: nat, cache: SubtreeCache, lost: nat -> set<nat>, job: Job,
                  ghost filed: seq<seq<Hash>>, ghost leaves: seq<seq<Hash>>) returns (next: Job)
    requires reg.Valid() && winner < reg.cfg.miners && winner < |reg.View().index|
    requires Ready(reg.hp, reg.cfg, reg.View(), winner, filed, leaves)
    requires CacheOk(reg.View(), winner, cache.maxSize, cache.View())
    requires JobOk(reg.cfg, reg.View(), winner, lost, job) && job.Working? && job.at < |job.sis|
    modifies cache
    ensures reg.View() == old(reg.View()) && reg.Valid()
    ensures CacheOk(reg.View(), winner, cache.maxSize, cache.View())
    ensures JobOk(reg.cfg, reg.View(), winner, lost, next) && next.Working? && next.ti == job.ti
    ensures Pending(next) < Pending(job)
  {
    hide *;
    reg.ValidFacts();
    ghost var s := reg.View();
    var si := job.sis[job.at];
    JobFacts(reg.cfg, s, winner, lost, job);
    PendingSteps(job);
    ListedHere(reg.hp, reg.cfg, s, winner, filed, leaves, job.ti, job.sis, si);
    match job.phase
    case Idle =>
      CacheEntries(cache);
      var hit := cache.Get(si);
      if hit.Some? {
        CacheHit(s, winner, cache.maxSize, cache.View(), si);
        JobGains(reg.hp, reg.cfg, s, winner, filed, leaves, lost, job, hit.value, si);
        GainedParts(reg.cfg, s, winner, job, hit.value);
        next := Gain(reg, winner, job, hit.value);
      } else {
        AtMissed(s, winner, job.sis, job.at);
        JobWaits(reg.cfg, s, winner, lost, job, Missed(si));
        next := job.(phase := Missed(si));
      }
    case Missed(_) =>
      if si in lost(job.ti) || (winner, si) !in reg.disk {
        JobSkips(reg.cfg, s, winner, lost, job);
        next := job.(at := job.at + 1, phase := Idle);
      } else {
        var leavesRead := BytesToHashSlice(reg.disk[(winner, si)].0);
        var storeRead := BytesToHashSlice(reg.disk[(winner, si)].1);
        var cs := Cached(leavesRead, storeRead);
        ReadAsStored(s, winner, si);
        AtHolding(s, winner, job.sis, job.at, cs);
        JobWaits(reg.cfg, s, winner, lost, job, Holding(si, cs));
        next := job.(phase := Holding(si, cs));
      }
    case Holding(_, cs) =>
      HeldAsStored(s, winner, job);
      CachePut(s, winner, cache.maxSize, cache.View(), si);
      JobGains(reg.hp, reg.cfg, s, winner, filed, leaves, lost, job, cs, si);
      GainedParts(reg.cfg, s, winner, job, cs);
      cache.Put(si, cs);
      StillReady(reg, s);
      next := Gain(reg, winner, job, cs);
  }

  /** A job through with its list has loaded everything but some of what was lost. */
  lemma ThroughAll(hp: HashFn, cfg: Config, s: State, w: nat, filed: seq<seq<Hash>>, leaves: seq<seq<Hash>>,
                   ti: nat, sis: seq<nat>, lost: set<nat>, loaded: set<nat>)
    requires Ready(hp, cfg, s, w, filed, leaves) && w < |s.index| && Listing(s, w, ti, sis) && Through(sis, |sis|, lost, loaded)
    ensures LoadedWithin(cfg, s, w, ti, lost, loaded)
  {
    assert sis[..|sis|] == sis;
    ListingLoadable(hp, cfg, s, w, filed, leaves, ti, lost, sis);
    ListingLoadable(hp, cfg, s, w, filed, leaves, ti, {}, sis);
    hide Ready, Listing, Loadable, NotLost;
  }

  /** The assembly, when all listed subtrees are through: no BUMP when nothing was loaded. */
  method FinishToken(reg: Registry, winner: nat, topProofs: seq<seq<Hash>>, subtreeHeight: nat, topHeight: nat, job: Job,
                     blockHeight: nat, ws: WorkerState, ghost lost: nat -> set<nat>,
                     ghost filed: seq<seq<Hash>>, ghost leaves: seq<seq<Hash>>)
    returns (r: Option<Data>)
    requires reg.Valid() && winner < reg.cfg.miners && reg.cfg.subtrees > 0 && winner < |reg.View().index|
    requires Ready(reg.hp, reg.cfg, reg.View(), winner, filed, leaves) && blockHeight < U32
    requires topProofs == TopProofs(reg.hp, reg.roots[winner])
    requires subtreeHeight == Log2(reg.cfg.hps) && topHeight == Log2(reg.cfg.subtrees)
    requires JobOk(reg.cfg, reg.View(), winner, lost, job) && job.Working? && job.at == |job.sis|
    modifies ws`levels, ws`bitset, ws`outBuf, ws.bitset
    ensures reg.View() == old(reg.View()) && reg.Valid()
    ensures ws.bitset == old(ws.bitset) || fresh(ws.bitset)
    ensures var loaded := job.subtrees.Keys;
      && LoadedWithin(reg.cfg, reg.View(), winner, job.ti, lost(job.ti), loaded)
      && (r.Some? <==> loaded != {})
      && (r.Some? ==> TokenProved(reg.hp, reg.cfg, reg.View(), winner, filed, leaves, job.ti, loaded, blockHeight, r.value)
                      && SubtreeResult(reg.hp, reg.cfg, reg.View(), winner, job.ti, loaded, blockHeight, r.value))
  {
    hide *;
    reg.ValidFacts();
    ghost var s := reg.View();
    ghost var loaded := job.subtrees.Keys;
    JobFacts(reg.cfg, s, winner, lost, job);
    ThroughAll(reg.hp, reg.cfg, s, winner, filed, leaves, job.ti, job.sis, lost(job.ti), loaded);
    WithinBlock(reg.cfg, s, winner, job.ti, lost(job.ti), loaded);
    CollectingEmpty(reg.cfg, s, winner, job.ti, job.positions, job.subtrees, loaded);
    if |job.positions| == 0 {
      return None;
    }
    var plan := Plan(reg.cfg.hps, subtreeHeight, topHeight, job.subtrees, topProofs);
    CollectedPlan(reg.hp, reg.cfg, s, winner, filed, leaves, job.ti, loaded, job.positions, plan);
    ghost var order;
    var bytes;
    bytes, order := AssembleTokenBumpFast(blockHeight, job.positions, plan, ws);
    ReadyFacts(reg.hp, reg.cfg, s, winner, filed, leaves);
    SubtreesDone(reg.hp, reg.cfg, s, winner, filed, leaves, job.ti, loaded, job.positions, plan, order, blockHeight,
                 ws.levels[..plan.height + plan.topHeight], bytes.value);
    r := Some(bytes.value);
  }

  lemma LastPending(job: Job)
    requires job.Working? && job.at == |job.sis|
    ensures Pending(Free) < Pending(job)
  {}

  /** One step of a worker on its token; the worker is free again, with the result, when that was the assembly. */
  method JobStep(reg: Registry, winner: nat, topProofs: seq<seq<Hash>>, subtreeHeight: nat, topHeight: nat,
                 cache: SubtreeCache, lost: nat -> set<nat>, job: Job, blockHeight: nat, ws: WorkerState,
                 ghost filed: seq<seq<Hash>>, ghost leaves: seq<seq<Hash>>)
    returns (next: Job, r: Option<Data>)
    requires reg.Valid() && winner < reg.cfg.miners && reg.cfg.subtrees > 0 && winner < |reg.View().index|
    requires Ready(reg.hp, reg.cfg, reg.View(), winner, filed, leaves) && blockHeight < U32
    requires topProofs == TopProofs(reg.hp, reg.roots[winner])
    requires subtreeHeight == Log2(reg.cfg.hps) && topHeight == Log2(reg.cfg.subtrees)
    requires CacheOk(reg.View(), winner, cache.maxSize, cache.View())
    requires JobOk(reg.cfg, reg.View(), winner, lost, job) && job.Working?
    modifies cache, ws`levels, ws`bitset, ws`outBuf, ws.bitset
    ensures reg.View() == old(reg.View()) && reg.Valid() && (ws.bitset == old(ws.bitset) || fresh(ws.bitset))
    ensures CacheOk(reg.View(), winner, cache.maxSize, cache.View())
    ensures Pending(next) < Pending(job)
    ensures next.Working? ==> JobOk(reg.cfg, reg.View(), winner, lost, next) && next.ti == job.ti
    ensures next.Free? ==>
      var loaded := job.subtrees.Keys;
      && LoadedWithin(reg.cfg, reg.View(), winner, job.ti, lost(job.ti), loaded)
      && (r.Some? <==> loaded != {})
      && (r.Some? ==> TokenProved(reg.hp, reg.cfg, reg.View(), winner, filed, leaves, job.ti, loaded, blockHeight, r.value))
  {
    hide *;
    JobFacts(reg.cfg, reg.View(), winner, lost, job);
    if job.at < |job.sis| {
      next := LoadStep(reg, winner, cache, lost, job, filed, leaves);
      r := None;
    } else {
      LastPending(job);
      r := FinishToken(reg, winner, topProofs, subtreeHeight, topHeight, job, blockHeight, ws, lost, filed, leaves);
      next := Free;
    }
  }

  // ---- The pool ------------------------------------------------------------------------------------

  predicate Runnable(job: Job, next: nat, total: nat) {
    job.Working? || next < total
  }

  predicate HasToken(job: Job, ti: nat) {
    job.Working? && job.ti == ti
  }

  /** Every token taken from the queue is finished or with a worker. */
  ghost predicate Accounted(jobs: seq<Job>, finished: set<nat>, next: nat) {
    && (forall ti :: ti in finished ==> ti < next)
    && (forall ti :: 0 <= ti < next ==> ti in finished || exists j :: 0 <= j < |jobs| && HasToken(jobs[j], ti))
  }

  ghost predicate AllOk(cfg: Config, s: State, w: nat, lost: nat -> set<nat>, jobs: seq<Job>)
    requires w < |s.index|
  {
    forall j :: 0 <= j < |jobs| ==> JobOk(cfg, s, w, lost, jobs[j])
  }

  /** Tokens with workers are taken, unfinished, and each with one worker. */
  ghost predicate Exclusive(jobs: seq<Job>, finished: set<nat>, next: nat) {
    && (forall j :: 0 <= j < |jobs| && jobs[j].Working? ==> jobs[j].ti < next && jobs[j].ti !in finished)
    && (forall i, j :: 0 <= i < j < |jobs| && jobs[i].Working? && jobs[j].Working? ==> jobs[i].ti != jobs[j].ti)
  }

  lemma AllFree(cfg: Config, s: State, w: nat, lost: nat -> set<nat>, jobs: seq<Job>)
    requires w < |s.index| && forall j :: 0 <= j < |jobs| ==> jobs[j].Free?
    ensures AllOk(cfg, s, w, lost, jobs) && Accounted(jobs, {}, 0) && Exclusive(jobs, {}, 0)
  {}

  lemma OkUpdate(cfg: Config, s: State, w: nat, lost: nat -> set<nat>, jobs: seq<Job>, j: nat, job: Job)
    requires w < |s.index| && AllOk(cfg, s, w, lost, jobs) && j < |jobs|
    requires job.Free? || JobOk(cfg, s, w, lost, job)
    ensures AllOk(cfg, s, w, lost, jobs[j := job])
    ensures JobOk(cfg, s, w, lost, jobs[j])
  {}

  lemma TakenAccounted(jobs: seq<Job>, finished: set<nat>, next: nat, j: nat, job: Job)
    requires Accounted(jobs, finished, next) && j < |jobs| && jobs[j].Free? && HasToken(job, next)
    ensures Accounted(jobs[j := job], finished, next + 1)
  {
    var after := jobs[j := job];
    forall ti | 0 <= ti < next + 1
      ensures ti in finished || exists i :: 0 <= i < |after| && HasToken(after[i], ti)
    {
      if ti == next {
        assert HasToken(after[j], ti);
      } else if ti !in finished {
        var i :| 0 <= i < |jobs| && HasToken(jobs[i], ti);
        assert after[i] == jobs[i];
      }
    }
  }

  lemma SteppedAccounted(jobs: seq<Job>, finished: set<nat>, next: nat, j: nat, job: Job)
    requires Accounted(jobs, finished, next) && j < |jobs| && jobs[j].Working? && HasToken(job, jobs[j].ti)
    ensures Accounted(jobs[j := job], finished, next)
  {
    var after := jobs[j := job];
    forall ti | 0 <= ti < next && ti !in finished
      ensures exists i :: 0 <= i < |after| && HasToken(after[i], ti)
    {
      var i :| 0 <= i < |jobs| && HasToken(jobs[i], ti);
      assert HasToken(after[i], ti);
    }
  }

  lemma FinishedAccounted(jobs: seq<Job>, finished: set<nat>, next: nat, j: nat)
    requires Accounted(jobs, finished, next) && j < |jobs| && jobs[j].Working? && jobs[j].ti < next
    ensures Accounted(jobs[j := Free], finished + {jobs[j].ti}, next)
  {
    var after := jobs[j := Free];
    forall ti | 0 <= ti < next && ti !in finished + {jobs[j].ti}
      ensures exists i :: 0 <= i < |after| && HasToken(after[i], ti)
    {
      var i :| 0 <= i < |jobs| && HasToken(jobs[i], ti);
      assert HasToken(after[i], ti);
    }
  }

  lemma AtOnceAccounted(jobs: seq<Job>, finished: set<nat>, next: nat)
    requires Accounted(jobs, finished, next)
    ensures Accounted(jobs, finished + {next}, next + 1) && next !in finished
    ensures Exclusive(jobs, finished, next) ==> Exclusive(jobs, finished + {next}, next + 1)
  {}

  lemma NothingLeft(jobs: seq<Job>, finished: set<nat>, next: nat, total: nat)
    requires Accounted(jobs, finished, next) && |jobs| > 0 && next <= total
    requires forall j :: 0 <= j < |jobs| ==> !Runnable(jobs[j], next, total)
    ensures finished == Below(total)
  {
    assert !Runnable(jobs[0], next, total);
    forall j, ti: nat | 0 <= j < |jobs|
      ensures !HasToken(jobs[j], ti)
    {
      assert !Runnable(jobs[j], next, total);
    }
  }

  lemma RunnableNow(job: Job, next: nat, total: nat)
    requires Runnable(job, next, total)
    ensures job.Free? ==> next < total
  {}

  lemma EmptyCacheOk(s: State, w: nat, maxSize: nat)
    ensures CacheOk(s, w, maxSize, EMPTY)
  {}

  lemma LoadsGrow(loads: map<nat, set<nat>>, ti: nat, loaded: set<nat>)
    ensures loads[ti := loaded].Keys == loads.Keys + {ti}
  {}

  lemma TakenNow(jobs: seq<Job>, finished: set<nat>, next: nat, j: nat, job: Job)
    requires Accounted(jobs, finished, next) && Exclusive(jobs, finished, next) && j < |jobs| && jobs[j].Free?
    requires job.Working? && job.ti == next
    ensures Accounted(jobs[j := job], finished, next + 1) && Exclusive(jobs[j := job], finished, next + 1)
  {
    TakenAccounted(jobs, finished, next, j, job);
    hide Accounted;
  }

  lemma SteppedNow(jobs: seq<Job>, finished: set<nat>, next: nat, j: nat, job: Job)
    requires Accounted(jobs, finished, next) && Exclusive(jobs, finished, next) && j < |jobs| && jobs[j].Working?
    requires job.Working? && job.ti == jobs[j].ti
    ensures Accounted(jobs[j := job], finished, next) && Exclusive(jobs[j := job], finished, next)
  {
    SteppedAccounted(jobs, finished, next, j, job);
    hide Accounted;
  }

  lemma FinishedNow(jobs: seq<Job>, finished: set<nat>, next: nat, j: nat)
    requires Accounted(jobs, finished, next) && Exclusive(jobs, finished, next) && j < |jobs| && jobs[j].Working?
    ensures Accounted(jobs[j := Free], finished + {jobs[j].ti}, next) && Exclusive(jobs[j := Free], finished + {jobs[j].ti}, next)
    ensures jobs[j].ti !in finished
  {
    FinishedAccounted(jobs, finished, next, j);
    hide Accounted;
  }

  method SpawnWorkers(totalHeight: nat, procs: nat, total: nat) returns (jobs: seq<Job>, states: seq<WorkerState>)
    ensures |jobs| == |states| > 0 && forall j :: 0 <= j < |jobs| ==> jobs[j].Free?
    ensures forall j :: 0 <= j < |states| ==> fresh(states[j]) && fresh(states[j].bitset)
  {
    var numWorkers := procs;
    if numWorkers > total {
      numWorkers := total;
    }
    if numWorkers < 1 {
      numWorkers := 1;
    }
    jobs := seq(numWorkers, _ => Free);
    states := [];
    for w := 0 to numWorkers
      invariant |states| == w && forall j :: 0 <= j < w ==> fresh(states[j]) && fresh(states[j].bitset)
    {
      var ws := new WorkerState(totalHeight);
      states := states + [ws];
    }
  }

  /** A token served from fragments at once joins the finished ones. */
  lemma RecordAtOnce(hp: HashFn, cfg: Config, s: State, w: nat, filed: seq<seq<Hash>>, leaves: seq<seq<Hash>>,
                     lost: nat -> set<nat>, blockHeight: nat, bumps: map<nat, Data>, loads: map<nat, set<nat>>,
                     jobs: seq<Job>, next: nat, loaded: set<nat>, r: Option<Data>)
    requires w < |s.index| && loaded == Loadable(cfg, s, w, next, lost(next))
    requires Accounted(jobs, loads.Keys, next) && Exclusive(jobs, loads.Keys, next)
    requires BumpsMade(hp, cfg, s, w, filed, leaves, lost, blockHeight, bumps, loads)
    requires r.Some? <==> loaded != {}
    requires r.Some? ==> TokenProved(hp, cfg, s, w, filed, leaves, next, loaded, blockHeight, r.value)
    ensures var more := loads[next := loaded];
      && Accounted(jobs, more.Keys, next + 1) && Exclusive(jobs, more.Keys, next + 1)
      && BumpsMade(hp, cfg, s, w, filed, leaves, lost, blockHeight, if r.Some? then bumps[next := r.value] else bumps, more)
  {
    hide *;
    AtOnceAccounted(jobs, loads.Keys, next);
    LoadsGrow(loads, next, loaded);
    LoadedFragments(cfg, s, w, next, lost(next));
    OneBump(hp, cfg, s, w, filed, leaves, lost, blockHeight, bumps, loads, next, loaded, r);
  }

  /** A token a worker is through with joins the finished ones. */
  lemma RecordFinished(hp: HashFn, cfg: Config, s: State, w: nat, filed: seq<seq<Hash>>, leaves: seq<seq<Hash>>,
                       lost: nat -> set<nat>, blockHeight: nat, bumps: map<nat, Data>, loads: map<nat, set<nat>>,
                       jobs: seq<Job>, next: nat, j: nat, ti: nat, loaded: set<nat>, r: Option<Data>)
    requires w < |s.index| && LoadedWithin(cfg, s, w, ti, lost(ti), loaded) && !cfg.fragments
    requires Accounted(jobs, loads.Keys, next) && Exclusive(jobs, loads.Keys, next)
    requires j < |jobs| && jobs[j].Working? && jobs[j].ti == ti
    requires BumpsMade(hp, cfg, s, w, filed, leaves, lost, blockHeight, bumps, loads)
    requires r.Some? <==> loaded != {}
    requires r.Some? ==> TokenProved(hp, cfg, s, w, filed, leaves, ti, loaded, blockHeight, r.value)
    ensures var more := loads[ti := loaded];
      && Accounted(jobs[j := Free], more.Keys, next) && Exclusive(jobs[j := Free], more.Keys, next)
      && BumpsMade(hp, cfg, s, w, filed, leaves, lost, blockHeight, if r.Some? then bumps[ti := r.value] else bumps, more)
  {
    hide *;
    FinishedNow(jobs, loads.Keys, next, j);
    LoadsGrow(loads, ti, loaded);
    LoadedSubtrees(cfg, s, w, ti, lost(ti), loaded);
    OneBump(hp, cfg, s, w, filed, leaves, lost, blockHeight, bumps, loads, ti, loaded, r);
  }

  /** The workers and their queue, until every token is through. */
  method RunPool(reg: Registry, winner: nat, topProofs: seq<seq<Hash>>, subtreeHeight: nat, topHeight: nat, blockHeight: nat,
                 maxCacheEntries: nat, procs: nat, lost: nat -> set<nat>,
                 ghost filed: seq<seq<Hash>>, ghost leaves: seq<seq<Hash>>)
    returns (bumps: map<nat, Data>, ghost loads: map<nat, set<nat>>)
    requires reg.Valid() && winner < reg.cfg.miners && reg.cfg.subtrees > 0 && winner < |reg.View().index| && blockHeight < U32
    requires Ready(reg.hp, reg.cfg, reg.View(), winner, filed, leaves)
    requires topProofs == TopProofs(reg.hp, reg.roots[winner])
    requires subtreeHeight == Log2(reg.cfg.hps) && topHeight == Log2(reg.cfg.subtrees)
    ensures reg.Valid() && reg.View() == old(reg.View())
    ensures BumpsMade(reg.hp, reg.cfg, reg.View(), winner, filed, leaves, lost, blockHeight, bumps, loads)
    ensures loads.Keys == Below(reg.cfg.businesses)
  {
    hide *;
    ghost var s := reg.View();
    var total := reg.cfg.businesses;
    var cache := new SubtreeCache(maxCacheEntries);
    EmptyCacheOk(s, winner, cache.maxSize);
    var jobs, states := SpawnWorkers(subtreeHeight + topHeight, procs, total);
    AllFree(reg.cfg, s, winner, lost, jobs);
    NoBumps(reg.hp, reg.cfg, s, winner, filed, leaves, lost, blockHeight);
    bumps, loads := map[], map[];
    assert loads.Keys == {};
    var next := 0;
    while exists j :: 0 <= j < |jobs| && Runnable(jobs[j], next, total)
      invariant fresh(cache) && |jobs| == |states| > 0 && next <= total
      invariant forall j :: 0 <= j < |states| ==> fresh(states[j]) && fresh(states[j].bitset)
      invariant reg.View() == s && reg.Valid()
      invariant CacheOk(s, winner, cache.maxSize, cache.View())
      invariant AllOk(reg.cfg, s, winner, lost, jobs)
      invariant Accounted(jobs, loads.Keys, next) && Exclusive(jobs, loads.Keys, next)
      invariant BumpsMade(reg.hp, reg.cfg, s, winner, filed, leaves, lost, blockHeight, bumps, loads)
      invariant reg.cfg.fragments ==> forall j :: 0 <= j < |jobs| ==> jobs[j].Free?
      decreases total - next, TotalPending(jobs)
    {
      var j :| 0 <= j < |jobs| && Runnable(jobs[j], next, total);
      RunnableNow(jobs[j], next, total);
      OkUpdate(reg.cfg, s, winner, lost, jobs, j, Free);
      if jobs[j].Free? {
        if reg.cfg.fragments {
          var r := TokenFromFragments(reg, winner, topProofs, subtreeHeight, topHeight, next, lost(next), blockHeight,
                                      states[j], filed, leaves);
          ghost var loaded := Loadable(reg.cfg, s, winner, next, lost(next));
          RecordAtOnce(reg.hp, reg.cfg, s, winner, filed, leaves, lost, blockHeight, bumps, loads, jobs, next, loaded, r);
          bumps := if r.Some? then bumps[next := r.value] else bumps;
          loads := loads[next := loaded];
        } else {
          var job := TakeToken(reg, winner, next, lost);
          OkUpdate(reg.cfg, s, winner, lost, jobs, j, job);
          TakenNow(jobs, loads.Keys, next, j, job);
          jobs := jobs[j := job];
        }
        next := next + 1;
      } else {
        var ti := jobs[j].ti;
        var job, r := JobStep(reg, winner, topProofs, subtreeHeight, topHeight, cache, lost, jobs[j], blockHeight,
                              states[j], filed, leaves);
        OkUpdate(reg.cfg, s, winner, lost, jobs, j, job);
        PendingUpdate(jobs, j, job);
        if job.Working? {
          SteppedNow(jobs, loads.Keys, next, j, job);
        } else {
          ghost var loaded := jobs[j].subtrees.Keys;
          RecordFinished(reg.hp, reg.cfg, s, winner, filed, leaves, lost, blockHeight, bumps, loads, jobs, next, j, ti, loaded, r);
          bumps := if r.Some? then bumps[ti := r.value] else bumps;
          loads := loads[ti := loaded];
        }
        jobs := jobs[j := job];
      }
    }
    NothingLeft(jobs, loads.Keys, next, total);
  }

  /**
    ProcessBUMPs: the top tree once, then every token by whichever worker takes it. A token from fragments reads
    nothing that another worker writes and is one step; a token from subtrees is a lookup, a read and a put for each
    subtree, with all other workers' steps in between, and its assembly. lost(ti) are the subtrees whose read, or whose
    fragment's, fails for token ti; any other token's may succeed.
   */
  method ProcessBumps(reg: Registry, winner: nat, blockHeight: nat, maxCacheEntries: nat, numCPU: nat, procs: nat,
                      lost: nat -> set<nat>, ghost filed: seq<seq<Hash>>, ghost leaves: seq<seq<Hash>>)
    returns (bumps: map<nat, Data>, ghost loads: map<nat, set<nat>>)
    requires reg.Valid() && winner < reg.cfg.miners && blockHeight < U32
    requires Ready(reg.hp, reg.cfg, reg.View(), winner, filed, leaves)
    ensures reg.Valid() && reg.View() == old(reg.View())
    ensures winner < |reg.View().index|
    ensures BumpsMade(reg.hp, reg.cfg, reg.View(), winner, filed, leaves, lost, blockHeight, bumps, loads)
    ensures loads.Keys == Below(reg.cfg.businesses)
  {
    hide *;
    reg.ValidFacts();
    ReadyFacts(reg.hp, reg.cfg, reg.View(), winner, filed, leaves);
    ghost var s := reg.View();
    RootsCount(reg.cfg, s, winner);
    var topProofs := GetAllProofs(reg.hp, reg.roots[winner], numCPU);
    TopProofsBy(reg.hp, s.roots[winner], topProofs);
    var subtreeHeight := Log2Ceil(reg.cfg.hps);
    var topHeight := Log2Ceil(reg.cfg.subtrees);
    bumps, loads := RunPool(reg, winner, topProofs, subtreeHeight, topHeight, blockHeight, maxCacheEntries, procs,
                     lost, filed, leaves);
  }
}
