/**
  The bounded cache of loaded subtrees, and workers sharing it: each looks a subtree up, on a miss reads it from disk
  and puts it, with the others free to act between those steps.
 */
module Cache {
  import opened Hashes
  import opened Emit
  import opened Sorting

  datatype Contents = Contents(entries: map<nat, Cached>, order: seq<nat>)

  const EMPTY := Contents(map[], [])

  /** order lists the cached subtrees, each once, and no more of them than the bound; a bound of 0 is none. */
  ghost predicate WellKept(maxSize: nat, c: Contents) {
    && NoRepeats(c.order)
    && |c.entries| == |c.order|
    && (forall si :: si in c.order <==> si in c.entries)
    && (maxSize > 0 ==> |c.order| <= maxSize)
  }

  function Removed(entries: map<nat, Cached>, si: nat): map<nat, Cached> {
    map x | x in entries && x != si :: entries[x]
  }

  function MakeRoom(maxSize: nat, c: Contents): Contents
    requires WellKept(maxSize, c)
  {
    if |c.entries| >= maxSize && maxSize > 0 then Contents(Removed(c.entries, c.order[0]), c.order[1..]) else c
  }

  /** Present subtrees stay; at capacity the oldest goes first. */
  function PutIn(maxSize: nat, c: Contents, si: nat, cs: Cached): Contents
    requires WellKept(maxSize, c)
  {
    if si in c.entries then c
    else
      var room := MakeRoom(maxSize, c);
      Contents(room.entries[si := cs], room.order + [si])
  }

  lemma KeysSize<V>(m: map<nat, V>)
    ensures |m.Keys| == |m|
  {}

  lemma RemovedSize(entries: map<nat, Cached>, si: nat)
    requires si in entries
    ensures |Removed(entries, si)| == |entries| - 1
  {
    assert Removed(entries, si).Keys == entries.Keys - {si};
    KeysSize(entries);
    KeysSize(Removed(entries, si));
  }

  lemma AddedSize(entries: map<nat, Cached>, si: nat, cs: Cached)
    requires si !in entries
    ensures |entries[si := cs]| == |entries| + 1
  {
    assert entries[si := cs].Keys == entries.Keys + {si};
    KeysSize(entries);
    KeysSize(entries[si := cs]);
  }

  lemma TailMembers(order: seq<nat>)
    requires NoRepeats(order) && |order| > 0
    ensures NoRepeats(order[1..])
    ensures forall x :: x in order[1..] <==> x in order && x != order[0]
  {
    forall x
      ensures x in order[1..] <==> x in order && x != order[0]
    {
      if x in order && x != order[0] {
        var i :| 0 <= i < |order| && order[i] == x;
        assert order[1..][i - 1] == x;
      }
    }
  }

  lemma KeptParts(maxSize: nat, c: Contents)
    requires WellKept(maxSize, c)
    ensures NoRepeats(c.order) && |c.entries| == |c.order| && (maxSize > 0 ==> |c.order| <= maxSize)
    ensures forall si :: si in c.order <==> si in c.entries
  {}

  lemma KeptBy(maxSize: nat, c: Contents)
    requires NoRepeats(c.order) && |c.entries| == |c.order| && (maxSize > 0 ==> |c.order| <= maxSize)
    requires forall si :: si in c.order <==> si in c.entries
    ensures WellKept(maxSize, c)
  {}

  lemma RemovedMembers(entries: map<nat, Cached>, si: nat)
    ensures forall x :: x in Removed(entries, si) <==> x in entries && x != si
  {}

  lemma EvictKept(maxSize: nat, c: Contents)
    requires WellKept(maxSize, c) && |c.order| > 0
    ensures WellKept(maxSize, Contents(Removed(c.entries, c.order[0]), c.order[1..]))
  {
    hide *;
    KeptParts(maxSize, c);
    assert c.order[0] in c.entries;
    TailMembers(c.order);
    RemovedSize(c.entries, c.order[0]);
    RemovedMembers(c.entries, c.order[0]);
    KeptBy(maxSize, Contents(Removed(c.entries, c.order[0]), c.order[1..]));
  }

  lemma AddKept(maxSize: nat, c: Contents, si: nat, cs: Cached)
    requires WellKept(maxSize, c) && si !in c.entries && (maxSize > 0 ==> |c.order| < maxSize)
    ensures WellKept(maxSize, Contents(c.entries[si := cs], c.order + [si]))
  {
    NoRepeatsAppend(c.order, [si]);
    AddedSize(c.entries, si, cs);
    hide NoRepeats;
    assert forall x :: x in c.order + [si] <==> x in c.order || x == si;
  }

  /** The cache a put adds to: without the oldest subtree when the bound is reached. */
  lemma RoomKept(maxSize: nat, c: Contents)
    requires WellKept(maxSize, c)
    ensures var room := MakeRoom(maxSize, c);
      && WellKept(maxSize, room) && (maxSize > 0 ==> |room.order| < maxSize)
      && forall si :: si in room.entries ==> si in c.entries
  {
    if |c.entries| >= maxSize && maxSize > 0 {
      EvictKept(maxSize, c);
    }
    hide NoRepeats;
  }

  lemma PutKept(maxSize: nat, c: Contents, si: nat, cs: Cached)
    requires WellKept(maxSize, c)
    ensures WellKept(maxSize, PutIn(maxSize, c, si, cs))
  {
    hide WellKept, MakeRoom;
    if si !in c.entries {
      RoomKept(maxSize, c);
      AddKept(maxSize, MakeRoom(maxSize, c), si, cs);
    }
  }

  class SubtreeCache {
    var entries: map<nat, Cached>
    var order: seq<nat>
    const maxSize: nat

    ghost function View(): Contents
      reads this
    {
      Contents(entries, order)
    }

    constructor (maxEntries: nat)
      ensures View() == EMPTY && maxSize == maxEntries && WellKept(maxSize, View())
    {
      entries := map[];
      order := [];
      maxSize := maxEntries;
    }

    method Get(si: nat) returns (r: Option<Cached>)
      ensures r == if si in entries then Some(entries[si]) else None
    {
      r := if si in entries then Some(entries[si]) else None;
    }

    method Put(si: nat, cs: Cached)
      requires WellKept(maxSize, View())
      modifies this
      ensures View() == PutIn(maxSize, old(View()), si, cs) && WellKept(maxSize, View())
    {
      PutKept(maxSize, View(), si, cs);
      if si in entries {
        return;
      }
      if |entries| >= maxSize && maxSize > 0 {
        var oldest := order[0];
        order := order[1..];
        entries := Removed(entries, oldest);
      }
      entries := entries[si := cs];
      order := order + [si];
    }
  }

  // ---- Workers sharing one cache -------------------------------------------------------------------

  type Disk = map<nat, Cached>

  /** Where a worker is in a load: between loads, past a miss, or holding what it read. */
  datatype Phase = Idle | Missed(si: nat) | Holding(si: nat, cs: Cached)

  /**
    `puts` lists the subtrees added so far and `returned` what each finished load gave. `uses` lists every addition
    and every hit, and `recency` is the order a cache would keep that moves a subtree to the back on each hit.
   */
  datatype System = System(cache: Contents, workers: seq<Phase>, puts: seq<nat>, returned: seq<(nat, Option<Cached>)>,
                           uses: seq<nat>, recency: seq<nat>)

  /** A lookup for subtree si, and the two later steps of a load that missed. */
  datatype Event = Lookup(w: nat, si: nat) | Read(w: nat) | Store(w: nat)

  predicate Enabled(s: System, e: Event) {
    e.w < |s.workers| &&
    match e
    case Lookup(w, _) => s.workers[w].Idle?
    case Read(w) => s.workers[w].Missed?
    case Store(w) => s.workers[w].Holding?
  }

  function Without(order: seq<nat>, si: nat): seq<nat> {
    if order == [] then []
    else if order[0] == si then Without(order[1..], si)
    else [order[0]] + Without(order[1..], si)
  }

  /** A use of si moves it to the back. */
  function Touch(order: seq<nat>, si: nat): seq<nat> {
    Without(order, si) + [si]
  }

  /** The reference order without the subtree that a put evicts, if it evicts one. */
  function Kept(maxSize: nat, c: Contents, recency: seq<nat>): seq<nat>
    requires WellKept(maxSize, c)
  {
    if |c.entries| >= maxSize && maxSize > 0 then Without(recency, c.order[0]) else recency
  }

  function Apply(maxSize: nat, disk: Disk, s: System, e: Event): System
    requires Enabled(s, e) && WellKept(maxSize, s.cache)
  {
    match e
    case Lookup(w, si) =>
      if si in s.cache.entries then
        s.(returned := s.returned + [(si, Some(s.cache.entries[si]))], uses := s.uses + [si],
           recency := Touch(s.recency, si))
      else s.(workers := s.workers[w := Missed(si)])
    case Read(w) =>
      var si := s.workers[w].si;
      if si in disk then s.(workers := s.workers[w := Holding(si, disk[si])])
      else s.(workers := s.workers[w := Idle], returned := s.returned + [(si, None)])
    case Store(w) =>
      var si, cs := s.workers[w].si, s.workers[w].cs;
      System(PutIn(maxSize, s.cache, si, cs), s.workers[w := Idle],
             if si in s.cache.entries then s.puts else s.puts + [si],
             s.returned + [(si, Some(cs))],
             if si in s.cache.entries then s.uses else s.uses + [si],
             if si in s.cache.entries then s.recency else Kept(maxSize, s.cache, s.recency) + [si])
  }

  ghost predicate Suffix(a: seq<nat>, b: seq<nat>) {
    |a| <= |b| && a == b[|b| - |a|..]
  }

  /** The cache holds what is on disk, and exactly the most recent additions. */
  ghost predicate CacheFaithful(disk: Disk, c: Contents, puts: seq<nat>) {
    (forall si :: si in c.entries ==> si in disk && c.entries[si] == disk[si]) && Suffix(c.order, puts)
  }

  ghost predicate WorkersFaithful(disk: Disk, workers: seq<Phase>) {
    forall w :: 0 <= w < |workers| && workers[w].Holding? ==> workers[w].si in disk && workers[w].cs == disk[workers[w].si]
  }

  function OnDisk(disk: Disk, si: nat): Option<Cached> {
    if si in disk then Some(disk[si]) else None
  }

  ghost predicate LoadsFaithful(disk: Disk, returned: seq<(nat, Option<Cached>)>) {
    forall i :: 0 <= i < |returned| ==> returned[i].1 == OnDisk(disk, returned[i].0)
  }

  ghost predicate Faithful(maxSize: nat, disk: Disk, s: System) {
    && WellKept(maxSize, s.cache) && CacheFaithful(disk, s.cache, s.puts)
    && WorkersFaithful(disk, s.workers) && LoadsFaithful(disk, s.returned)
  }

  lemma SuffixSnoc(a: seq<nat>, b: seq<nat>, x: nat)
    requires Suffix(a, b)
    ensures Suffix(a + [x], b + [x])
    ensures |a| > 0 ==> Suffix(a[1..] + [x], b + [x])
  {
    var n := |b| - |a|;
    assert (b + [x])[n..] == b[n..] + [x];
    if |a| > 0 {
      assert (b + [x])[n + 1..] == b[n..][1..] + [x];
    }
  }

  lemma SuffixPut(maxSize: nat, c: Contents, puts: seq<nat>, si: nat, cs: Cached)
    requires WellKept(maxSize, c) && Suffix(c.order, puts)
    ensures Suffix(PutIn(maxSize, c, si, cs).order, if si in c.entries then puts else puts + [si])
  {
    SuffixSnoc(c.order, puts, si);
    hide Suffix, NoRepeats, Removed;
  }

  lemma PutFaithful(maxSize: nat, disk: Disk, c: Contents, puts: seq<nat>, si: nat)
    requires WellKept(maxSize, c) && CacheFaithful(disk, c, puts) && si in disk
    ensures CacheFaithful(disk, PutIn(maxSize, c, si, disk[si]), if si in c.entries then puts else puts + [si])
  {
    SuffixPut(maxSize, c, puts, si, disk[si]);
    hide Suffix;
  }

  lemma LoadReturned(disk: Disk, returned: seq<(nat, Option<Cached>)>, si: nat, r: Option<Cached>)
    requires LoadsFaithful(disk, returned) && r == OnDisk(disk, si)
    ensures LoadsFaithful(disk, returned + [(si, r)])
  {}

  lemma PhaseSet(disk: Disk, workers: seq<Phase>, w: nat, p: Phase)
    requires WorkersFaithful(disk, workers) && w < |workers| && (p.Holding? ==> p.si in disk && p.cs == disk[p.si])
    ensures WorkersFaithful(disk, workers[w := p])
    ensures workers[w].Holding? ==> workers[w].si in disk && workers[w].cs == disk[workers[w].si]
  {}

  lemma LookupFaithful(maxSize: nat, disk: Disk, s: System, w: nat, si: nat)
    requires Faithful(maxSize, disk, s) && Enabled(s, Lookup(w, si))
    ensures Faithful(maxSize, disk, Apply(maxSize, disk, s, Lookup(w, si)))
  {
    if si in s.cache.entries {
      LoadReturned(disk, s.returned, si, Some(s.cache.entries[si]));
    } else {
      PhaseSet(disk, s.workers, w, Missed(si));
    }
    hide WellKept, PutIn, Suffix, LoadsFaithful, WorkersFaithful;
  }

  lemma ReadFaithful(maxSize: nat, disk: Disk, s: System, w: nat)
    requires Faithful(maxSize, disk, s) && Enabled(s, Read(w))
    ensures Faithful(maxSize, disk, Apply(maxSize, disk, s, Read(w)))
  {
    var si := s.workers[w].si;
    PhaseSet(disk, s.workers, w, if si in disk then Holding(si, disk[si]) else Idle);
    LoadReturned(disk, s.returned, si, OnDisk(disk, si));
    hide WellKept, PutIn, CacheFaithful, LoadsFaithful, WorkersFaithful;
  }

  lemma StoreFaithful(maxSize: nat, disk: Disk, s: System, w: nat)
    requires Faithful(maxSize, disk, s) && Enabled(s, Store(w))
    ensures Faithful(maxSize, disk, Apply(maxSize, disk, s, Store(w)))
  {
    var si, cs := s.workers[w].si, s.workers[w].cs;
    PhaseSet(disk, s.workers, w, Idle);
    LoadReturned(disk, s.returned, si, Some(cs));
    PutKept(maxSize, s.cache, si, cs);
    PutFaithful(maxSize, disk, s.cache, s.puts, si);
    hide WellKept, PutIn, CacheFaithful, LoadsFaithful, WorkersFaithful;
  }

  lemma StepFaithful(maxSize: nat, disk: Disk, s: System, e: Event)
    requires Faithful(maxSize, disk, s) && Enabled(s, e)
    ensures Faithful(maxSize, disk, Apply(maxSize, disk, s, e))
  {
    hide WellKept, PutIn, CacheFaithful, LoadsFaithful, WorkersFaithful;
    match e
    case Lookup(w, si) => LookupFaithful(maxSize, disk, s, w, si);
    case Read(w) => ReadFaithful(maxSize, disk, s, w);
    case Store(w) => StoreFaithful(maxSize, disk, s, w);
  }

  function Start(workers: nat): System {
    System(EMPTY, seq(workers, _ => Idle), [], [], [], [])
  }

  /** s is reached from idle workers and an empty cache by the events of the run, in their order. */
  ghost predicate Reached(maxSize: nat, disk: Disk, workers: nat, run: seq<Event>, s: System)
    decreases |run|
  {
    if run == [] then s == Start(workers)
    else exists before ::
      && Reached(maxSize, disk, workers, run[..|run| - 1], before)
      && WellKept(maxSize, before.cache) && Enabled(before, run[|run| - 1])
      && s == Apply(maxSize, disk, before, run[|run| - 1])
  }

  lemma {:induction false} ReachedFaithful(maxSize: nat, disk: Disk, workers: nat, run: seq<Event>, s: System)
    requires Reached(maxSize, disk, workers, run, s)
    ensures Faithful(maxSize, disk, s)
    decreases |run|
  {
    if run != [] {
      var init, last := run[..|run| - 1], run[|run| - 1];
      var before :| Reached(maxSize, disk, workers, init, before) && WellKept(maxSize, before.cache)
                    && Enabled(before, last) && s == Apply(maxSize, disk, before, last);
      ReachedFaithful(maxSize, disk, workers, init, before);
      StepFaithful(maxSize, disk, before, last);
    }
  }

  /**
    Every interleaving: a load returns the stored subtree, or nothing exactly when there is none; the order lists
    the cached subtrees once each, within the bound; and what is cached is the most recent additions, so eviction
    is first-in first-out.
   */
  lemma EveryInterleaving(maxSize: nat, disk: Disk, workers: nat, run: seq<Event>, s: System)
    requires Reached(maxSize, disk, workers, run, s)
    ensures forall i :: 0 <= i < |s.returned| ==> s.returned[i].1 == OnDisk(disk, s.returned[i].0)
    ensures forall si :: si in s.cache.entries ==> si in disk && s.cache.entries[si] == disk[si]
    ensures NoRepeats(s.cache.order) && forall si :: si in s.cache.order <==> si in s.cache.entries
    ensures maxSize > 0 ==> |s.cache.entries| <= maxSize
    ensures |s.cache.order| <= |s.puts| && s.cache.order == s.puts[|s.puts| - |s.cache.order|..]
  {
    ReachedFaithful(maxSize, disk, workers, run, s);
  }

  // ---- Eviction by recency -------------------------------------------------------------------------

  lemma {:induction false} WithoutAbsent(order: seq<nat>, si: nat)
    requires si !in order
    ensures Without(order, si) == order
  {
    if order != [] {
      WithoutAbsent(order[1..], si);
    }
  }

  lemma {:induction false} WithoutAt(order: seq<nat>, p: nat)
    requires NoRepeats(order) && p < |order|
    ensures Without(order, order[p]) == order[..p] + order[p + 1..]
  {
    TailMembers(order);
    if p == 0 {
      WithoutAbsent(order[1..], order[0]);
    } else {
      WithoutAt(order[1..], p - 1);
      assert order[1..][..p - 1] + order[1..][p..] == order[1..p] + order[p + 1..];
    }
  }

  lemma TouchKeeps(order: seq<nat>, si: nat)
    requires NoRepeats(order) && si in order
    ensures Touch(order, si) == order <==> order[|order| - 1] == si
  {
    var p :| 0 <= p < |order| && order[p] == si;
    WithoutAt(order, p);
    if p == |order| - 1 {
      assert Touch(order, si) == order;
    } else {
      assert Touch(order, si)[|order| - 1] == si;
    }
  }

  /** The index of the last use of si, or -1. */
  function LastUse(uses: seq<nat>, si: nat): (r: int)
    ensures -1 <= r < |uses|
    ensures r >= 0 ==> uses[r] == si
    ensures forall i :: r < i < |uses| ==> uses[i] != si
  {
    if uses == [] then -1
    else if uses[|uses| - 1] == si then |uses| - 1
    else LastUse(uses[..|uses| - 1], si)
  }

  ghost predicate ByLastUse(order: seq<nat>, uses: seq<nat>) {
    forall i, j :: 0 <= i < j < |order| ==> LastUse(uses, order[i]) < LastUse(uses, order[j])
  }

  lemma LastUseSnoc(uses: seq<nat>, x: nat, si: nat)
    ensures LastUse(uses + [x], si) == if x == si then |uses| else LastUse(uses, si)
  {
    assert (uses + [x])[..|uses|] == uses;
  }

  lemma ByLastUseDistinct(order: seq<nat>, uses: seq<nat>)
    requires ByLastUse(order, uses)
    ensures NoRepeats(order)
  {}

  lemma {:induction false} WithoutMembers(order: seq<nat>, si: nat)
    ensures forall x :: x in Without(order, si) <==> x in order && x != si
  {
    if order != [] {
      WithoutMembers(order[1..], si);
      assert order == [order[0]] + order[1..];
    }
  }

  lemma CutByLastUse(order: seq<nat>, uses: seq<nat>, p: nat)
    requires ByLastUse(order, uses) && p < |order|
    ensures ByLastUse(order[..p] + order[p + 1..], uses)
  {
    var rest := order[..p] + order[p + 1..];
    forall i, j | 0 <= i < j < |rest|
      ensures LastUse(uses, rest[i]) < LastUse(uses, rest[j])
    {
      assert rest[i] == order[if i < p then i else i + 1] && rest[j] == order[if j < p then j else j + 1];
    }
    hide LastUse;
  }

  lemma WithoutByLastUse(order: seq<nat>, uses: seq<nat>, si: nat)
    requires ByLastUse(order, uses)
    ensures ByLastUse(Without(order, si), uses)
  {
    ByLastUseDistinct(order, uses);
    if si in order {
      var p :| 0 <= p < |order| && order[p] == si;
      WithoutAt(order, p);
      CutByLastUse(order, uses, p);
    } else {
      WithoutAbsent(order, si);
    }
    hide ByLastUse, NoRepeats, Without, LastUse;
  }

  lemma AddByLastUse(order: seq<nat>, uses: seq<nat>, si: nat)
    requires ByLastUse(order, uses) && si !in order
    ensures ByLastUse(order + [si], uses + [si])
  {
    var more := order + [si];
    forall i, j | 0 <= i < j < |more|
      ensures LastUse(uses + [si], more[i]) < LastUse(uses + [si], more[j])
    {
      LastUseSnoc(uses, si, more[i]);
      LastUseSnoc(uses, si, more[j]);
    }
  }

  /** The reference order lists the cached subtrees from the least to the most recently used. */
  ghost predicate RecencySound(s: System) {
    ByLastUse(s.recency, s.uses) && forall si :: si in s.recency <==> si in s.cache.entries
  }

  lemma HitRecency(maxSize: nat, disk: Disk, s: System, w: nat, si: nat)
    requires WellKept(maxSize, s.cache) && RecencySound(s) && Enabled(s, Lookup(w, si)) && si in s.cache.entries
    ensures RecencySound(Apply(maxSize, disk, s, Lookup(w, si)))
  {
    WithoutByLastUse(s.recency, s.uses, si);
    WithoutMembers(s.recency, si);
    AddByLastUse(Without(s.recency, si), s.uses, si);
    hide ByLastUse, WellKept, PutIn, Without;
  }

  lemma RoomRecency(maxSize: nat, s: System)
    requires WellKept(maxSize, s.cache) && RecencySound(s)
    ensures ByLastUse(Kept(maxSize, s.cache, s.recency), s.uses)
    ensures forall x :: x in Kept(maxSize, s.cache, s.recency) <==> x in MakeRoom(maxSize, s.cache).entries
  {
    if |s.cache.entries| >= maxSize && maxSize > 0 {
      WithoutByLastUse(s.recency, s.uses, s.cache.order[0]);
      WithoutMembers(s.recency, s.cache.order[0]);
    }
    hide ByLastUse, Without, NoRepeats;
  }

  lemma StoreRecency(maxSize: nat, disk: Disk, s: System, w: nat)
    requires WellKept(maxSize, s.cache) && RecencySound(s) && Enabled(s, Store(w))
    ensures RecencySound(Apply(maxSize, disk, s, Store(w)))
  {
    var si := s.workers[w].si;
    if si !in s.cache.entries {
      RoomRecency(maxSize, s);
      RoomKept(maxSize, s.cache);
      AddByLastUse(Kept(maxSize, s.cache, s.recency), s.uses, si);
    }
    hide ByLastUse, WellKept, MakeRoom, Kept;
  }

  lemma StepSound(maxSize: nat, disk: Disk, s: System, e: Event)
    requires WellKept(maxSize, s.cache) && RecencySound(s) && Enabled(s, e)
    ensures RecencySound(Apply(maxSize, disk, s, e))
  {
    match e
    case Lookup(w, si) =>
      if si in s.cache.entries {
        HitRecency(maxSize, disk, s, w, si);
      }
    case Read(_) =>
    case Store(w) => StoreRecency(maxSize, disk, s, w);
    hide ByLastUse, WellKept, PutIn, Touch, Kept;
  }

  lemma {:induction false} ReachedRecency(maxSize: nat, disk: Disk, workers: nat, run: seq<Event>, s: System)
    requires Reached(maxSize, disk, workers, run, s)
    ensures RecencySound(s)
    decreases |run|
  {
    if run != [] {
      var init, last := run[..|run| - 1], run[|run| - 1];
      var before :| Reached(maxSize, disk, workers, init, before) && WellKept(maxSize, before.cache)
                    && Enabled(before, last) && s == Apply(maxSize, disk, before, last);
      ReachedRecency(maxSize, disk, workers, init, before);
      StepSound(maxSize, disk, before, last);
    }
  }

  predicate Hits(s: System, e: Event) {
    Enabled(s, e) && e.Lookup? && e.si in s.cache.entries
  }

  ghost predicate LastHit(s: System, e: Event) {
    Hits(s, e) ==> |s.cache.order| > 0 && e.si == s.cache.order[|s.cache.order| - 1]
  }

  /** At every moment of the run the cache's order is the order of last use. */
  ghost predicate KeepsRecency(maxSize: nat, disk: Disk, workers: nat, run: seq<Event>) {
    forall n, s :: 0 <= n <= |run| && Reached(maxSize, disk, workers, run[..n], s) ==> s.cache.order == s.recency
  }

  ghost predicate HitsNewestOnly(maxSize: nat, disk: Disk, workers: nat, run: seq<Event>) {
    forall n, s :: 0 <= n < |run| && Reached(maxSize, disk, workers, run[..n], s) ==> LastHit(s, run[n])
  }

  lemma StepRecency(maxSize: nat, disk: Disk, s: System, e: Event)
    requires WellKept(maxSize, s.cache) && Enabled(s, e) && s.cache.order == s.recency
    ensures var next := Apply(maxSize, disk, s, e); next.cache.order == next.recency <==> LastHit(s, e)
  {
    if Hits(s, e) {
      TouchKeeps(s.cache.order, e.si);
    } else if e.Store? && |s.cache.order| > 0 {
      WithoutAt(s.cache.order, 0);
    }
    hide NoRepeats, Without, Removed;
  }

  lemma ReachedStep(maxSize: nat, disk: Disk, workers: nat, run: seq<Event>, s: System, e: Event)
    requires Reached(maxSize, disk, workers, run, s) && Enabled(s, e)
    ensures WellKept(maxSize, s.cache)
    ensures Reached(maxSize, disk, workers, run + [e], Apply(maxSize, disk, s, e))
  {
    ReachedFaithful(maxSize, disk, workers, run, s);
    assert (run + [e])[..|run|] == run;
    hide WellKept, Apply, Enabled;
  }

  lemma {:induction false} NewestKeeps(maxSize: nat, disk: Disk, workers: nat, run: seq<Event>, n: nat, s: System)
    requires HitsNewestOnly(maxSize, disk, workers, run)
    requires n <= |run| && Reached(maxSize, disk, workers, run[..n], s)
    ensures s.cache.order == s.recency
  {
    if n > 0 {
      assert run[..n][..n - 1] == run[..n - 1] && run[..n][n - 1] == run[n - 1];
      var before :| Reached(maxSize, disk, workers, run[..n - 1], before) && WellKept(maxSize, before.cache)
                    && Enabled(before, run[n - 1]) && s == Apply(maxSize, disk, before, run[n - 1]);
      NewestKeeps(maxSize, disk, workers, run, n - 1, before);
      StepRecency(maxSize, disk, before, run[n - 1]);
    }
  }

  lemma NewestMeansKeeps(maxSize: nat, disk: Disk, workers: nat, run: seq<Event>)
    requires HitsNewestOnly(maxSize, disk, workers, run)
    ensures KeepsRecency(maxSize, disk, workers, run)
  {
    forall n, s | 0 <= n <= |run| && Reached(maxSize, disk, workers, run[..n], s)
      ensures s.cache.order == s.recency
    {
      NewestKeeps(maxSize, disk, workers, run, n, s);
    }
    hide Reached, HitsNewestOnly;
  }

  lemma KeepsAt(maxSize: nat, disk: Disk, workers: nat, run: seq<Event>, n: nat, s: System)
    requires KeepsRecency(maxSize, disk, workers, run)
    requires n <= |run| && Reached(maxSize, disk, workers, run[..n], s)
    ensures s.cache.order == s.recency
  {}

  lemma KeepsMeansNewest(maxSize: nat, disk: Disk, workers: nat, run: seq<Event>, n: nat, s: System)
    requires KeepsRecency(maxSize, disk, workers, run)
    requires n < |run| && Reached(maxSize, disk, workers, run[..n], s) && Enabled(s, run[n])
    ensures LastHit(s, run[n])
  {
    hide *;
    ReachedStep(maxSize, disk, workers, run[..n], s, run[n]);
    assert run[..n] + [run[n]] == run[..n + 1];
    KeepsAt(maxSize, disk, workers, run, n, s);
    KeepsAt(maxSize, disk, workers, run, n + 1, Apply(maxSize, disk, s, run[n]));
    StepRecency(maxSize, disk, s, run[n]);
  }

  /**
    The order is that of last use throughout a run exactly when every hit of the run is on the subtree added last,
    which a lookup can tell before it happens.
   */
  lemma RecencyIffNewestHits(maxSize: nat, disk: Disk, workers: nat, run: seq<Event>)
    ensures KeepsRecency(maxSize, disk, workers, run) <==> HitsNewestOnly(maxSize, disk, workers, run)
  {
    if HitsNewestOnly(maxSize, disk, workers, run) {
      NewestMeansKeeps(maxSize, disk, workers, run);
    }
    if KeepsRecency(maxSize, disk, workers, run) {
      forall n, s | 0 <= n < |run| && Reached(maxSize, disk, workers, run[..n], s)
        ensures LastHit(s, run[n])
      {
        if Enabled(s, run[n]) {
          KeepsMeansNewest(maxSize, disk, workers, run, n, s);
        }
      }
    }
    hide Reached, KeepsRecency, Enabled;
  }

  // ---- What the order means for eviction -----------------------------------------------------------

  /** t is where the events lead from s, and none of them is a hit. */
  ghost predicate MissesLeadTo(maxSize: nat, disk: Disk, s: System, more: seq<Event>, t: System)
    decreases |more|
  {
    if more == [] then s == t
    else
      && WellKept(maxSize, s.cache) && Enabled(s, more[0]) && !Hits(s, more[0])
      && MissesLeadTo(maxSize, disk, Apply(maxSize, disk, s, more[0]), more[1..], t)
  }

  /** The event adds a subtree to a full cache. */
  predicate Evicts(maxSize: nat, s: System, e: Event) {
    Enabled(s, e) && e.Store? && s.workers[e.w].si !in s.cache.entries && |s.cache.entries| >= maxSize && maxSize > 0
  }

  /** Unless it is hit again, the cache next evicts, and keeps evicting, what was used longest ago. */
  ghost predicate EvictsByRecency(maxSize: nat, disk: Disk, s: System) {
    forall more, t, e :: MissesLeadTo(maxSize, disk, s, more, t) && Evicts(maxSize, t, e) ==>
      |t.cache.order| > 0 && |t.recency| > 0 && t.cache.order[0] == t.recency[0]
  }

  /** The state the system keeps, reads and stores included. */
  ghost predicate Sane(maxSize: nat, disk: Disk, s: System) {
    Faithful(maxSize, disk, s) && RecencySound(s)
  }

  lemma ReachedSane(maxSize: nat, disk: Disk, workers: nat, run: seq<Event>, s: System)
    requires Reached(maxSize, disk, workers, run, s)
    ensures Sane(maxSize, disk, s) && WellKept(maxSize, s.cache)
  {
    ReachedFaithful(maxSize, disk, workers, run, s);
    ReachedRecency(maxSize, disk, workers, run, s);
    hide Reached, RecencySound, WellKept;
  }

  lemma SaneParts(maxSize: nat, disk: Disk, s: System)
    requires Sane(maxSize, disk, s)
    ensures Faithful(maxSize, disk, s) && RecencySound(s) && WellKept(maxSize, s.cache)
  {}

  lemma StepSane(maxSize: nat, disk: Disk, s: System, e: Event)
    requires Sane(maxSize, disk, s) && Enabled(s, e)
    ensures WellKept(maxSize, s.cache) && Sane(maxSize, disk, Apply(maxSize, disk, s, e))
  {
    assert WellKept(maxSize, s.cache);
    hide Faithful, RecencySound, WellKept, Enabled, Apply;
    SaneParts(maxSize, disk, s);
    StepFaithful(maxSize, disk, s, e);
    StepSound(maxSize, disk, s, e);
  }

  lemma {:induction false} MissesKeepOrder(maxSize: nat, disk: Disk, s: System, more: seq<Event>, t: System)
    requires s.cache.order == s.recency && MissesLeadTo(maxSize, disk, s, more, t)
    ensures t.cache.order == t.recency
    decreases |more|
  {
    if more != [] {
      StepRecency(maxSize, disk, s, more[0]);
      MissesKeepOrder(maxSize, disk, Apply(maxSize, disk, s, more[0]), more[1..], t);
    }
    hide Apply, WellKept, Enabled;
  }

  lemma {:induction false} MissesKeepSane(maxSize: nat, disk: Disk, s: System, more: seq<Event>, t: System)
    requires Sane(maxSize, disk, s) && MissesLeadTo(maxSize, disk, s, more, t)
    ensures Sane(maxSize, disk, t)
    decreases |more|
  {
    if more != [] {
      StepSane(maxSize, disk, s, more[0]);
      MissesKeepSane(maxSize, disk, Apply(maxSize, disk, s, more[0]), more[1..], t);
    }
    hide Apply, WellKept, Enabled, Sane;
  }

  lemma MissStep(maxSize: nat, disk: Disk, s: System, e: Event)
    requires WellKept(maxSize, s.cache) && Enabled(s, e) && !Hits(s, e) && EvictsByRecency(maxSize, disk, s)
    ensures EvictsByRecency(maxSize, disk, Apply(maxSize, disk, s, e))
    ensures Evicts(maxSize, s, e) ==> |s.cache.order| > 0 && |s.recency| > 0 && s.cache.order[0] == s.recency[0]
  {
    var next := Apply(maxSize, disk, s, e);
    assert MissesLeadTo(maxSize, disk, s, [], s);
    hide Apply, WellKept, Enabled, Hits, Evicts;
    forall more, t, e' | MissesLeadTo(maxSize, disk, next, more, t) && Evicts(maxSize, t, e')
      ensures |t.cache.order| > 0 && |t.recency| > 0 && t.cache.order[0] == t.recency[0]
    {
      assert ([e] + more)[1..] == more;
      assert MissesLeadTo(maxSize, disk, s, [e] + more, t);
    }
  }

  lemma SameMembersSize(a: seq<nat>, b: seq<nat>)
    requires NoRepeats(a) && NoRepeats(b) && forall x :: x in a <==> x in b
    ensures |a| == |b|
  {
    MembersSize(a);
    MembersSize(b);
    assert (set i | 0 <= i < |a| :: a[i]) == (set x | x in a);
    assert (set i | 0 <= i < |b| :: b[i]) == (set x | x in b);
    assert (set x | x in a) == (set x | x in b);
  }

  lemma OrdersSameSize(maxSize: nat, s: System)
    requires WellKept(maxSize, s.cache) && RecencySound(s)
    ensures |s.cache.order| == |s.recency| && NoRepeats(s.recency)
  {
    ByLastUseDistinct(s.recency, s.uses);
    hide ByLastUse;
    SameMembersSize(s.cache.order, s.recency);
  }

  /** The orders differ at place d. */
  predicate DifferAt(s: System, d: nat) {
    |s.cache.order| == |s.recency| && d < |s.recency| && s.cache.order[d] != s.recency[d]
  }

  lemma PutOrder(maxSize: nat, c: Contents, si: nat, cs: Cached)
    requires WellKept(maxSize, c) && si !in c.entries && maxSize > 0
    ensures |c.order| <= maxSize
    ensures PutIn(maxSize, c, si, cs).order == (if |c.order| == maxSize then c.order[1..] else c.order) + [si]
  {
    hide NoRepeats, Removed;
  }

  lemma KeptOrder(maxSize: nat, c: Contents, recency: seq<nat>)
    requires WellKept(maxSize, c) && maxSize > 0 && NoRepeats(recency) && |recency| == |c.order|
    requires |c.entries| >= maxSize ==> c.order[0] == recency[0]
    ensures Kept(maxSize, c, recency) == if |c.order| == maxSize then recency[1..] else recency
  {
    KeptParts(maxSize, c);
    if |c.entries| >= maxSize {
      WithoutAt(recency, 0);
      assert recency[..0] + recency[1..] == recency[1..];
    }
    hide NoRepeats, Without, WellKept;
  }

  lemma StoreParts(maxSize: nat, disk: Disk, s: System, w: nat)
    requires WellKept(maxSize, s.cache) && Enabled(s, Store(w)) && s.workers[w].si !in s.cache.entries
    ensures var next, si := Apply(maxSize, disk, s, Store(w)), s.workers[w].si;
      && next.cache == PutIn(maxSize, s.cache, si, s.workers[w].cs)
      && next.recency == Kept(maxSize, s.cache, s.recency) + [si]
  {
    hide WellKept, PutIn, Kept;
  }

  lemma DifferenceShifts(a: seq<nat>, b: seq<nat>, full: bool, si: nat, d: nat) returns (d': nat)
    requires |a| == |b| && d < |a| && a[d] != b[d] && (full ==> a[0] == b[0])
    ensures var a', b' := (if full then a[1..] else a) + [si], (if full then b[1..] else b) + [si];
      |a'| == |b'| && d' < |a'| && a'[d'] != b'[d']
    ensures d' == if full then d - 1 else d
  {
    d' := if full then d - 1 else d;
  }

  lemma DifferParts(s: System, d: nat)
    requires DifferAt(s, d)
    ensures |s.cache.order| == |s.recency| && d < |s.recency| && s.cache.order[d] != s.recency[d]
  {}

  lemma DifferBy(s: System, d: nat)
    requires |s.cache.order| == |s.recency| && d < |s.recency| && s.cache.order[d] != s.recency[d]
    ensures DifferAt(s, d)
  {}

  /** Adding a subtree moves a difference towards the front once the cache is full, and leaves it in place before. */
  lemma DifferenceMoves(maxSize: nat, disk: Disk, s: System, w: nat, d: nat) returns (d': nat)
    requires Sane(maxSize, disk, s) && Enabled(s, Store(w)) && s.workers[w].si !in s.cache.entries && maxSize > 0
    requires WellKept(maxSize, s.cache) && DifferAt(s, d)
    requires |s.cache.entries| >= maxSize ==> |s.cache.order| > 0 && s.cache.order[0] == s.recency[0]
    ensures var next := Apply(maxSize, disk, s, Store(w));
      && DifferAt(next, d') && |next.cache.order| <= maxSize
      && maxSize - |next.cache.order| + d' < maxSize - |s.cache.order| + d
  {
    var si, cs := s.workers[w].si, s.workers[w].cs;
    hide *;
    SaneParts(maxSize, disk, s);
    OrdersSameSize(maxSize, s);
    KeptParts(maxSize, s.cache);
    PutOrder(maxSize, s.cache, si, cs);
    KeptOrder(maxSize, s.cache, s.recency);
    StoreParts(maxSize, disk, s, w);
    DifferParts(s, d);
    d' := DifferenceShifts(s.cache.order, s.recency, |s.cache.order| == maxSize, si, d);
    DifferBy(Apply(maxSize, disk, s, Store(w)), d');
  }

  /** With more subtrees on disk than the cache has room for, some subtree is missing from it. */
  lemma SomeMissing(maxSize: nat, disk: Disk, c: Contents) returns (si: nat)
    requires WellKept(maxSize, c) && 0 < maxSize < |disk|
    ensures si in disk && si !in c.entries
  {
    KeysSize(disk);
    KeysSize(c.entries);
    if disk.Keys <= c.entries.Keys {
      SubsetSize(disk.Keys, c.entries.Keys);
      assert false;
    }
    si :| si in disk.Keys && si !in c.entries.Keys;
  }

  /** Steps a worker has to take before it looks a subtree up again. */
  function Rank(p: Phase): nat {
    match p
    case Idle => 0
    case Holding(_, _) => 1
    case Missed(_) => 2
  }

  ghost predicate Diverged(maxSize: nat, disk: Disk, s: System, d: nat) {
    && Sane(maxSize, disk, s) && WellKept(maxSize, s.cache) && DifferAt(s, d) && |s.workers| > 0
    && EvictsByRecency(maxSize, disk, s)
  }

  lemma DivergedFacts(maxSize: nat, disk: Disk, s: System, d: nat)
    requires Diverged(maxSize, disk, s, d)
    ensures Sane(maxSize, disk, s) && WellKept(maxSize, s.cache) && DifferAt(s, d) && |s.workers| > 0
    ensures EvictsByRecency(maxSize, disk, s)
    ensures maxSize > 0 ==> |s.cache.order| <= maxSize
  {}

  lemma DivergedStep(maxSize: nat, disk: Disk, s: System, d: nat, e: Event)
    requires Diverged(maxSize, disk, s, d) && Enabled(s, e) && !Hits(s, e)
    requires WellKept(maxSize, s.cache) && Apply(maxSize, disk, s, e).cache == s.cache
    requires Apply(maxSize, disk, s, e).recency == s.recency
    requires |Apply(maxSize, disk, s, e).workers| == |s.workers|
    ensures Diverged(maxSize, disk, Apply(maxSize, disk, s, e), d)
  {
    hide EvictsByRecency, Sane, WellKept, Enabled, Hits, Apply;
    StepSane(maxSize, disk, s, e);
    MissStep(maxSize, disk, s, e);
  }

  lemma StepWellKept(maxSize: nat, disk: Disk, s: System, e: Event)
    requires Sane(maxSize, disk, s) && Enabled(s, e) && WellKept(maxSize, s.cache)
    ensures WellKept(maxSize, Apply(maxSize, disk, s, e).cache)
  {
    hide Sane, WellKept, Apply, Enabled;
    StepSane(maxSize, disk, s, e);
    SaneParts(maxSize, disk, Apply(maxSize, disk, s, e));
  }

  lemma DivergedStore(maxSize: nat, disk: Disk, s: System, d: nat, w: nat) returns (d': nat)
    requires Diverged(maxSize, disk, s, d) && Enabled(s, Store(w)) && s.workers[w].si !in s.cache.entries && maxSize > 0
    ensures WellKept(maxSize, s.cache)
    ensures var next := Apply(maxSize, disk, s, Store(w));
      && Diverged(maxSize, disk, next, d') && |next.cache.order| <= maxSize
      && maxSize - |next.cache.order| + d' < maxSize - |s.cache.order| + d
  {
    DivergedFacts(maxSize, disk, s, d);
    assert |s.cache.entries| >= maxSize ==> Evicts(maxSize, s, Store(w));
    assert |Apply(maxSize, disk, s, Store(w)).workers| == |s.workers|;
    hide EvictsByRecency, Sane, WellKept, Apply;
    StepSane(maxSize, disk, s, Store(w));
    MissStep(maxSize, disk, s, Store(w));
    d' := DifferenceMoves(maxSize, disk, s, w, d);
    StepWellKept(maxSize, disk, s, Store(w));
  }

  /** An idle worker loads a subtree that is missing, and the difference comes closer. */
  lemma LoadsMissing(maxSize: nat, disk: Disk, s: System, d: nat) returns (t: System, d': nat)
    requires Diverged(maxSize, disk, s, d) && 0 < maxSize < |disk| && |s.workers| > 0 && s.workers[0].Idle?
    ensures Diverged(maxSize, disk, t, d') && |t.workers| > 0
    ensures |s.cache.order| <= maxSize && |t.cache.order| <= maxSize
    ensures maxSize - |t.cache.order| + d' < maxSize - |s.cache.order| + d
  {
    DivergedFacts(maxSize, disk, s, d);
    hide Diverged, WellKept, PutIn, Touch, Kept;
    var si := SomeMissing(maxSize, disk, s.cache);
    DivergedStep(maxSize, disk, s, d, Lookup(0, si));
    var missed := Apply(maxSize, disk, s, Lookup(0, si));
    DivergedStep(maxSize, disk, missed, d, Read(0));
    var held := Apply(maxSize, disk, missed, Read(0));
    d' := DivergedStore(maxSize, disk, held, d, 0);
    t := Apply(maxSize, disk, held, Store(0));
  }

  lemma PutPresent(maxSize: nat, c: Contents, si: nat, cs: Cached)
    requires WellKept(maxSize, c) && si in c.entries
    ensures PutIn(maxSize, c, si, cs) == c
  {}

  /**
    Two orders that differ cannot go on unnoticed: loading missing subtrees fills the cache and then brings the
    difference to the front.
   */
  lemma {:induction false} DifferenceShows(maxSize: nat, disk: Disk, s: System, d: nat)
    requires Diverged(maxSize, disk, s, d) && 0 < maxSize < |disk| && |s.workers| > 0
    ensures false
    decreases maxSize - |s.cache.order| + d, Rank(s.workers[0])
  {
    DivergedFacts(maxSize, disk, s, d);
    hide Diverged, WellKept, PutIn, Touch, Kept;
    match s.workers[0]
    case Missed(_) =>
      DivergedStep(maxSize, disk, s, d, Read(0));
      DifferenceShows(maxSize, disk, Apply(maxSize, disk, s, Read(0)), d);
    case Holding(si, _) =>
      if si in s.cache.entries {
        PutPresent(maxSize, s.cache, si, s.workers[0].cs);
        DivergedStep(maxSize, disk, s, d, Store(0));
        DifferenceShows(maxSize, disk, Apply(maxSize, disk, s, Store(0)), d);
      } else {
        var d' := DivergedStore(maxSize, disk, s, d, 0);
        DifferenceShows(maxSize, disk, Apply(maxSize, disk, s, Store(0)), d');
      }
    case Idle =>
      var t, d' := LoadsMissing(maxSize, disk, s, d);
      DifferenceShows(maxSize, disk, t, d');
  }

  lemma StepWorkers(maxSize: nat, disk: Disk, s: System, e: Event)
    requires WellKept(maxSize, s.cache) && Enabled(s, e)
    ensures |Apply(maxSize, disk, s, e).workers| == |s.workers|
  {
    hide WellKept, PutIn, Touch, Kept;
  }

  lemma {:induction false} ReachedWorkers(maxSize: nat, disk: Disk, workers: nat, run: seq<Event>, s: System)
    requires Reached(maxSize, disk, workers, run, s)
    ensures |s.workers| == workers
    decreases |run|
  {
    if run != [] {
      var init, last := run[..|run| - 1], run[|run| - 1];
      var before :| Reached(maxSize, disk, workers, init, before) && WellKept(maxSize, before.cache)
                    && Enabled(before, last) && s == Apply(maxSize, disk, before, last);
      ReachedWorkers(maxSize, disk, workers, init, before);
      StepWorkers(maxSize, disk, before, last);
    }
    hide WellKept, Apply, Enabled;
  }

  /** Nothing is ever evicted when the bound is none or the disk holds no more than the bound. */
  lemma NothingEvicted(maxSize: nat, disk: Disk, s: System, e: Event)
    requires Sane(maxSize, disk, s) && Enabled(s, e) && (maxSize == 0 || |disk| <= maxSize)
    ensures !Evicts(maxSize, s, e)
  {
    if Evicts(maxSize, s, e) {
      var si := s.workers[e.w].si;
      assert si in disk;
      KeysSize(disk);
      KeysSize(s.cache.entries);
      assert s.cache.entries.Keys + {si} <= disk.Keys;
      SubsetSize(s.cache.entries.Keys + {si}, disk.Keys);
      assert false;
    }
    hide WellKept, Suffix, LoadsFaithful, RecencySound;
  }

  lemma SameOrderEvicts(maxSize: nat, disk: Disk, s: System)
    requires s.cache.order == s.recency && Sane(maxSize, disk, s)
    ensures EvictsByRecency(maxSize, disk, s)
  {
    forall more, t, e | MissesLeadTo(maxSize, disk, s, more, t) && Evicts(maxSize, t, e)
      ensures |t.cache.order| > 0 && |t.recency| > 0 && t.cache.order[0] == t.recency[0]
    {
      MissesKeepOrder(maxSize, disk, s, more, t);
      MissesKeepSane(maxSize, disk, s, more, t);
      SaneParts(maxSize, disk, t);
    }
    hide MissesLeadTo, Sane, Faithful, RecencySound;
  }

  lemma NeverEvicts(maxSize: nat, disk: Disk, s: System)
    requires Sane(maxSize, disk, s) && (maxSize == 0 || |disk| <= maxSize)
    ensures EvictsByRecency(maxSize, disk, s)
  {
    forall more, t, e | MissesLeadTo(maxSize, disk, s, more, t)
      ensures !Evicts(maxSize, t, e)
    {
      if Evicts(maxSize, t, e) {
        MissesKeepSane(maxSize, disk, s, more, t);
        NothingEvicted(maxSize, disk, t, e);
      }
    }
    hide MissesLeadTo, Sane;
  }

  lemma FirstDifference(maxSize: nat, disk: Disk, s: System) returns (d: nat)
    requires Sane(maxSize, disk, s) && WellKept(maxSize, s.cache) && |s.workers| > 0 && s.cache.order != s.recency
    requires EvictsByRecency(maxSize, disk, s)
    ensures Diverged(maxSize, disk, s, d)
  {
    SaneParts(maxSize, disk, s);
    OrdersSameSize(maxSize, s);
    hide Sane, WellKept, EvictsByRecency;
    d :| 0 <= d < |s.recency| && s.cache.order[d] != s.recency[d];
  }

  /**
    From any state of any run, what misses alone go on to evict is always the least recently used exactly when the
    cache's order is the order of last use, or nothing can be evicted at all.
   */
  lemma EvictsByRecencyIff(maxSize: nat, disk: Disk, workers: nat, run: seq<Event>, s: System)
    requires Reached(maxSize, disk, workers, run, s) && workers > 0
    ensures EvictsByRecency(maxSize, disk, s) <==> s.cache.order == s.recency || maxSize == 0 || |disk| <= maxSize
  {
    ReachedSane(maxSize, disk, workers, run, s);
    ReachedWorkers(maxSize, disk, workers, run, s);
    hide Reached;
    if s.cache.order == s.recency {
      SameOrderEvicts(maxSize, disk, s);
    } else if maxSize == 0 || |disk| <= maxSize {
      NeverEvicts(maxSize, disk, s);
    } else if EvictsByRecency(maxSize, disk, s) {
      var d := FirstDifference(maxSize, disk, s);
      DifferenceShows(maxSize, disk, s, d);
    }
    hide EvictsByRecency, Sane, WellKept;
  }

  /** At every moment of the run misses alone would evict by recency. */
  ghost predicate AlwaysEvictsByRecency(maxSize: nat, disk: Disk, workers: nat, run: seq<Event>) {
    forall n, s :: 0 <= n <= |run| && Reached(maxSize, disk, workers, run[..n], s) ==> EvictsByRecency(maxSize, disk, s)
  }

  /**
    Eviction stays by recency throughout a run, whatever misses come next, exactly when every hit of the run is on
    the subtree added last or the disk holds no more than the cache.
   */
  lemma RecentEvictionIff(maxSize: nat, disk: Disk, workers: nat, run: seq<Event>)
    requires workers > 0
    ensures AlwaysEvictsByRecency(maxSize, disk, workers, run) <==>
            HitsNewestOnly(maxSize, disk, workers, run) || maxSize == 0 || |disk| <= maxSize
  {
    RecencyIffNewestHits(maxSize, disk, workers, run);
    forall n, s | 0 <= n <= |run| && Reached(maxSize, disk, workers, run[..n], s)
      ensures EvictsByRecency(maxSize, disk, s) <==> s.cache.order == s.recency || maxSize == 0 || |disk| <= maxSize
    {
      EvictsByRecencyIff(maxSize, disk, workers, run[..n], s);
    }
    hide Reached, EvictsByRecency, HitsNewestOnly;
  }

  lemma ReadMissing(maxSize: nat, disk: Disk, run: seq<Event>, s: System, si: nat)
    requires Reached(maxSize, disk, 1, run, s) && s.workers == [Idle]
    requires si in disk && si !in s.cache.entries
    ensures Reached(maxSize, disk, 1, run + [Lookup(0, si)] + [Read(0)], s.(workers := [Holding(si, disk[si])]))
  {
    ReachedStep(maxSize, disk, 1, run, s, Lookup(0, si));
    var missed := s.(workers := [Missed(si)]);
    assert s.workers[0 := Missed(si)] == [Missed(si)];
    ReachedStep(maxSize, disk, 1, run + [Lookup(0, si)], missed, Read(0));
    assert [Missed(si)][0 := Holding(si, disk[si])] == [Holding(si, disk[si])];
    hide Reached, WellKept, PutIn, Touch, Kept;
  }

  /** The state once the only worker has stored subtree si with room to spare. */
  function AfterStore(disk: Disk, s: System, si: nat): System
    requires si in disk
  {
    System(Contents(s.cache.entries[si := disk[si]], s.cache.order + [si]), [Idle], s.puts + [si],
           s.returned + [(si, Some(disk[si]))], s.uses + [si], s.recency + [si])
  }

  lemma StoreHeld(maxSize: nat, disk: Disk, run: seq<Event>, s: System, si: nat)
    requires si in disk && si !in s.cache.entries && |s.cache.entries| < maxSize && s.workers == [Idle]
    requires Reached(maxSize, disk, 1, run, s.(workers := [Holding(si, disk[si])]))
    ensures Reached(maxSize, disk, 1, run + [Store(0)], AfterStore(disk, s, si))
  {
    ReachedStep(maxSize, disk, 1, run, s.(workers := [Holding(si, disk[si])]), Store(0));
    assert [Holding(si, disk[si])][0 := Idle] == [Idle];
    hide Reached, WellKept, Touch, Removed, Without;
  }

  /** Subtrees 0 and 1 are loaded by one worker, 0 is looked up again, and then 2 is read. */
  const OLDEST_AGAIN := [Lookup(0, 0), Read(0), Store(0), Lookup(0, 1), Read(0), Store(0), Lookup(0, 0),
                         Lookup(0, 2), Read(0)]

  function TwoCached(disk: Disk): Contents
    requires 0 in disk && 1 in disk
  {
    Contents(map[0 := disk[0], 1 := disk[1]], [0, 1])
  }

  lemma LoadMissing(maxSize: nat, disk: Disk, run: seq<Event>, s: System, si: nat)
    requires Reached(maxSize, disk, 1, run, s) && s.workers == [Idle]
    requires si in disk && si !in s.cache.entries && |s.cache.entries| < maxSize
    ensures Reached(maxSize, disk, 1, run + [Lookup(0, si)] + [Read(0)] + [Store(0)], AfterStore(disk, s, si))
  {
    ReadMissing(maxSize, disk, run, s, si);
    StoreHeld(maxSize, disk, run + [Lookup(0, si)] + [Read(0)], s, si);
    hide Reached, AfterStore;
  }

  lemma StartIdle(maxSize: nat, disk: Disk)
    ensures Reached(maxSize, disk, 1, [], System(EMPTY, [Idle], [], [], [], []))
  {}

  lemma LoadTwo(disk: Disk) returns (s: System)
    requires 0 in disk && 1 in disk
    ensures Reached(2, disk, 1, OLDEST_AGAIN[..6], s)
    ensures s.workers == [Idle] && s.recency == [0, 1] && s.cache == TwoCached(disk)
  {
    hide Reached;
    var none := System(EMPTY, [Idle], [], [], [], []);
    StartIdle(2, disk);
    LoadMissing(2, disk, [], none, 0);
    var one := AfterStore(disk, none, 0);
    assert [] + [Lookup(0, 0)] + [Read(0)] + [Store(0)] == OLDEST_AGAIN[..3];
    LoadMissing(2, disk, OLDEST_AGAIN[..3], one, 1);
    assert OLDEST_AGAIN[..3] + [Lookup(0, 1)] + [Read(0)] + [Store(0)] == OLDEST_AGAIN[..6];
    s := AfterStore(disk, one, 1);
  }

  lemma EvictsZero(disk: Disk, s: System)
    requires 0 in disk && 1 in disk && 2 in disk
    requires s.workers == [Holding(2, disk[2])] && s.cache == TwoCached(disk) && WellKept(2, s.cache)
    ensures Apply(2, disk, s, Store(0)).cache == Contents(map[1 := disk[1], 2 := disk[2]], [1, 2])
  {
    assert Removed(s.cache.entries, 0) == map[1 := disk[1]];
    assert s.cache.order[1..] + [2] == [1, 2];
    hide WellKept;
  }

  lemma TouchTwo()
    ensures Touch([0, 1], 0) == [1, 0]
  {
    WithoutAt([0, 1], 0);
  }

  /** With room for two, that run leaves 1 as the least recently used, and storing 2 evicts 0. */
  lemma NotLeastRecentlyUsed(disk: Disk) returns (s: System)
    requires 0 in disk && 1 in disk && 2 in disk
    ensures Reached(2, disk, 1, OLDEST_AGAIN, s) && s.recency == [1, 0]
    ensures Enabled(s, Store(0)) && WellKept(2, s.cache)
    ensures Apply(2, disk, s, Store(0)).cache == Contents(map[1 := disk[1], 2 := disk[2]], [1, 2])
  {
    hide Reached, WellKept, PutIn;
    var r := OLDEST_AGAIN;
    var two := LoadTwo(disk);
    ReachedStep(2, disk, 1, r[..6], two, Lookup(0, 0));
    var again := Apply(2, disk, two, Lookup(0, 0));
    assert Touch([0, 1], 0) == [1, 0] by { TouchTwo(); }
    hide Touch;
    assert r[..6] + [Lookup(0, 0)] == r[..7];
    ReadMissing(2, disk, r[..7], again, 2);
    assert r[..7] + [Lookup(0, 2)] + [Read(0)] == r;
    s := again.(workers := [Holding(2, disk[2])]);
    ReachedFaithful(2, disk, 1, r, s);
    EvictsZero(disk, s);
  }
}
