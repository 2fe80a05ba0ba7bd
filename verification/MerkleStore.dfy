/** Building the flat merkle store in place, serially or by chunked workers, and reading proofs back out. */
module MerkleStore {
  import opened Arith
  import opened Hashes
  import opened Tree

  const PARALLEL_THRESHOLD := 4096

  // ---- Chunked workers -------------------------------------------------------------------------

  /**
    One goroutine: it hashes pairs pos..hi-1. Its loop body is split at each memory access
    (load left, load right, store), so that workers interleave between accesses.
   */
  datatype Phase = LoadLeft | LoadRight | StoreParent
  datatype Worker = Worker(pos: nat, hi: nat, phase: Phase, left: Hash, right: Hash)

  /** Accesses a worker still has to make. */
  ghost function Pending(w: Worker): nat {
    if w.pos >= w.hi then 0
    else 3 * (w.hi - w.pos) - (match w.phase case LoadLeft => 0 case LoadRight => 1 case StoreParent => 2)
  }

  ghost function TotalPending(ws: seq<Worker>): nat {
    if ws == [] then 0 else Pending(ws[0]) + TotalPending(ws[1..])
  }

  lemma {:induction false} PendingUpdate(ws: seq<Worker>, i: nat, w: Worker)
    requires i < |ws|
    ensures TotalPending(ws[i := w]) == TotalPending(ws) - Pending(ws[i]) + Pending(w)
  {
    if i == 0 {
      assert ws[0 := w][1..] == ws[1..];
    } else {
      assert ws[i := w][1..] == ws[1..][i - 1 := w];
      PendingUpdate(ws[1..], i - 1, w);
    }
  }

  /** Every access of a runnable worker brings the pass closer to its end. */
  lemma StepDecreases(ws: seq<Worker>, i: nat, w: Worker)
    requires i < |ws| && ws[i].pos < ws[i].hi && w.hi == ws[i].hi
    requires if ws[i].phase == StoreParent then w.pos == ws[i].pos + 1 && w.phase == LoadLeft
             else w.pos == ws[i].pos && w.phase == if ws[i].phase == LoadLeft then LoadRight else StoreParent
    ensures TotalPending(ws[i := w]) < TotalPending(ws)
  {
    PendingUpdate(ws, i, w);
  }

  /** The chunks partition the pairs: worker i starts where worker i-1 ends. */
  ghost predicate Partition(starts: seq<nat>, ws: seq<Worker>, numPairs: nat) {
    && |starts| == |ws|
    && (|ws| == 0 ==> numPairs == 0)
    && (|ws| > 0 ==> starts[0] == 0 && ws[|ws| - 1].hi == numPairs)
    && (forall i :: 0 < i < |ws| ==> starts[i] == ws[i - 1].hi)
    && (forall i :: 0 <= i < |ws| ==> starts[i] <= ws[i].pos <= ws[i].hi <= numPairs)
  }

  lemma ChunkBounds(starts: seq<nat>, ws: seq<Worker>, numPairs: nat)
    requires Partition(starts, ws, numPairs)
    ensures |starts| == |ws|
    ensures forall i :: 0 <= i < |ws| ==> starts[i] <= ws[i].pos <= ws[i].hi <= numPairs
  {}

  lemma {:induction false} ChunkOf(starts: seq<nat>, ws: seq<Worker>, numPairs: nat, pair: nat, upTo: nat)
    returns (i: nat)
    requires Partition(starts, ws, numPairs) && upTo <= |ws|
    requires upTo > 0 && pair < ws[upTo - 1].hi
    ensures i < |ws| && starts[i] <= pair < ws[i].hi
    decreases upTo
  {
    if pair >= starts[upTo - 1] {
      i := upTo - 1;
    } else {
      i := ChunkOf(starts, ws, numPairs, pair, upTo - 1);
    }
  }

  function FreshWorker(lo: nat, hi: nat): Worker {
    var zero := Hash(seq(HASH_SIZE, _ => 0));
    Worker(lo, hi, LoadLeft, zero, zero)
  }

  lemma EmptyPartition()
    ensures Partition([], [], 0)
  {}

  lemma ExtendPartition(starts: seq<nat>, ws: seq<Worker>, lo: nat, hi: nat)
    requires Partition(starts, ws, lo) && lo <= hi
    ensures Partition(starts + [lo], ws + [FreshWorker(lo, hi)], hi)
  {}

  lemma CeilCovers(n: nat, d: nat)
    requires d > 0
    ensures d * ((n + d - 1) / d) >= n
  {
    var m := n + d - 1;
    assert m == d * (m / d) + m % d;
  }

  /** The spawn loop: chunk bounds lo = w * chunk, hi clamped to the number of pairs. */
  method SpawnWorkers(numPairs: nat, numWorkers: nat) returns (ws: seq<Worker>, ghost starts: seq<nat>)
    requires numWorkers > 0
    ensures Partition(starts, ws, numPairs)
    ensures forall i :: 0 <= i < |ws| ==> ws[i].pos == starts[i] && ws[i].phase == LoadLeft
  {
    hide Partition;
    var chunk := (numPairs + numWorkers - 1) / numWorkers;
    CeilCovers(numPairs, numWorkers);
    ws, starts := [], [];
    ghost var reached: nat := 0;
    EmptyPartition();
    var w := 0;
    while w < numWorkers
      invariant w <= numWorkers && |ws| == |starts|
      invariant Partition(starts, ws, reached)
      invariant reached == if w * chunk > numPairs then numPairs else w * chunk
      invariant forall i :: 0 <= i < |ws| ==> ws[i].pos == starts[i] && ws[i].phase == LoadLeft
    {
      var lo := w * chunk;
      var hi := lo + chunk;
      if hi > numPairs { hi := numPairs; }
      if lo >= hi { break; }
      NextMultiple(w, chunk);
      ExtendPartition(starts, ws, lo, hi);
      ws := ws + [FreshWorker(lo, hi)];
      starts := starts + [lo];
      reached := hi;
      w := w + 1;
    }
  }

  /** What a worker has loaded so far is what the pair it works on holds. */
  ghost predicate LoadedRight(src: seq<Hash>, w: Worker) {
    w.pos < w.hi ==>
      && 2 * w.pos + 1 < |src|
      && (w.phase != LoadLeft ==> w.left == src[2 * w.pos])
      && (w.phase == StoreParent ==> w.right == src[2 * w.pos + 1])
  }

  ghost predicate Hashed(hp: HashFn, src: seq<Hash>, out: seq<Hash>, j: nat) {
    j < |out| && 2 * j + 1 < |src| && out[j] == hp(src[2 * j], src[2 * j + 1])
  }

  ghost predicate AllLoaded(src: seq<Hash>, ws: seq<Worker>) {
    forall w :: 0 <= w < |ws| ==> LoadedRight(src, ws[w])
  }

  ghost predicate AllHashed(hp: HashFn, src: seq<Hash>, out: seq<Hash>, starts: seq<nat>, ws: seq<Worker>)
    requires |starts| == |ws|
  {
    forall w, j :: 0 <= w < |ws| && starts[w] <= j < ws[w].pos ==> Hashed(hp, src, out, j)
  }

  /** The state of a parallel pass over `src`, whatever the interleaving so far. */
  ghost predicate Progress(hp: HashFn, src: seq<Hash>, out: seq<Hash>, starts: seq<nat>, ws: seq<Worker>) {
    && |src| == 2 * |out|
    && Partition(starts, ws, |out|)
    && AllLoaded(src, ws)
    && AllHashed(hp, src, out, starts, ws)
  }

  lemma RunnableWorker(hp: HashFn, src: seq<Hash>, out: seq<Hash>, starts: seq<nat>, ws: seq<Worker>, w: nat)
    requires Progress(hp, src, out, starts, ws) && w < |ws| && ws[w].pos < ws[w].hi
    ensures ws[w].hi <= |out| && |src| == 2 * |out| && LoadedRight(src, ws[w])
  {}

  lemma LoadKeepsProgress(hp: HashFn, src: seq<Hash>, out: seq<Hash>, starts: seq<nat>, ws: seq<Worker>,
                          w: nat, me: Worker)
    requires Progress(hp, src, out, starts, ws) && w < |ws| && ws[w].pos < ws[w].hi
    requires me.pos == ws[w].pos && me.hi == ws[w].hi && LoadedRight(src, me)
    ensures Progress(hp, src, out, starts, ws[w := me])
  {}

  lemma AdvanceKeepsPartition(starts: seq<nat>, ws: seq<Worker>, numPairs: nat, w: nat, me: Worker)
    requires Partition(starts, ws, numPairs) && w < |ws| && ws[w].pos < ws[w].hi
    requires me.pos == ws[w].pos + 1 && me.hi == ws[w].hi
    ensures Partition(starts, ws[w := me], numPairs)
  {}

  lemma StoreKeepsHashed(hp: HashFn, src: seq<Hash>, out: seq<Hash>, out': seq<Hash>,
                         starts: seq<nat>, ws: seq<Worker>, ws': seq<Worker>, w: nat)
    requires |starts| == |ws| && w < |ws| && AllHashed(hp, src, out, starts, ws)
    requires ws[w].pos < |out| && |src| == 2 * |out|
    requires var p := ws[w].pos; out' == out[p := hp(src[2 * p], src[2 * p + 1])]
    requires ws' == ws[w := ws[w].(pos := ws[w].pos + 1, phase := LoadLeft)]
    ensures AllHashed(hp, src, out', starts, ws')
  {
    forall v, j | 0 <= v < |ws'| && starts[v] <= j < ws'[v].pos
      ensures Hashed(hp, src, out', j)
    {
      assert j == ws[w].pos || Hashed(hp, src, out, j);
    }
  }

  lemma StoreKeepsProgress(hp: HashFn, src: seq<Hash>, out: seq<Hash>, starts: seq<nat>, ws: seq<Worker>,
                           w: nat, me: Worker)
    requires Progress(hp, src, out, starts, ws) && w < |ws| && ws[w].pos < ws[w].hi
    requires ws[w].phase == StoreParent
    requires me == ws[w].(pos := ws[w].pos + 1, phase := LoadLeft)
    ensures Progress(hp, src, out[ws[w].pos := hp(ws[w].left, ws[w].right)], starts, ws[w := me])
  {
    var out' := out[ws[w].pos := hp(ws[w].left, ws[w].right)];
    ChunkBounds(starts, ws, |out|);
    AdvanceKeepsPartition(starts, ws, |out|, w, me);
    assert LoadedRight(src, ws[w]);
    hide Partition, AllHashed;
    StoreKeepsHashed(hp, src, out, out', starts, ws, ws[w := me], w);
  }

  lemma SpawnProgress(hp: HashFn, src: seq<Hash>, out: seq<Hash>, starts: seq<nat>, ws: seq<Worker>)
    requires |src| == 2 * |out| && Partition(starts, ws, |out|)
    requires forall i :: 0 <= i < |ws| ==> ws[i].pos == starts[i] && ws[i].phase == LoadLeft
    ensures Progress(hp, src, out, starts, ws)
  {}

  /** When no worker can run, every pair is hashed: the chunks left no pair out. */
  lemma ProgressDone(hp: HashFn, src: seq<Hash>, out: seq<Hash>, starts: seq<nat>, ws: seq<Worker>, j: nat)
    requires Progress(hp, src, out, starts, ws) && j < |out|
    requires !exists w :: 0 <= w < |ws| && ws[w].pos < ws[w].hi
    ensures Hashed(hp, src, out, j)
  {
    var w := ChunkOf(starts, ws, |out|, j, |ws|);
    assert !(ws[w].pos < ws[w].hi);
  }

  /** Leaf pairs hashed by chunked workers; the scheduler may pick any runnable worker at any time. */
  method ParallelHashLeafPairs(hp: HashFn, leaves: seq<Hash>, store: array<Hash>, pad: nat, numWorkers: nat)
    requires |leaves| > 0 && pad % 2 == 0 && pad / 2 <= store.Length && numWorkers > 0
    modifies store
    ensures forall j :: 0 <= j < pad / 2 ==> store[j] == hp(PadLeaf(leaves, 2 * j), PadLeaf(leaves, 2 * j + 1))
    ensures forall j :: pad / 2 <= j < store.Length ==> store[j] == old(store[j])
  {
    hide Progress, Partition, Pending, TotalPending;
    var numPairs := pad / 2;
    ghost var src := seq(pad, i requires i >= 0 => PadLeaf(leaves, i));
    var ws, starts := SpawnWorkers(numPairs, numWorkers);
    SpawnProgress(hp, src, store[..numPairs], starts, ws);
    while exists w :: 0 <= w < |ws| && ws[w].pos < ws[w].hi
      invariant Progress(hp, src, store[..numPairs], starts, ws)
      invariant forall j :: numPairs <= j < store.Length ==> store[j] == old(store[j])
      decreases TotalPending(ws)
    {
      var w :| 0 <= w < |ws| && ws[w].pos < ws[w].hi;
      var me := ws[w];
      RunnableWorker(hp, src, store[..numPairs], starts, ws, w);
      ghost var out := store[..numPairs];
      match me.phase {
        case LoadLeft =>
          me := me.(left := PadLeaf(leaves, 2 * me.pos), phase := LoadRight);
          LoadKeepsProgress(hp, src, out, starts, ws, w, me);
        case LoadRight =>
          me := me.(right := PadLeaf(leaves, 2 * me.pos + 1), phase := StoreParent);
          LoadKeepsProgress(hp, src, out, starts, ws, w, me);
        case StoreParent =>
          store[me.pos] := hp(me.left, me.right);
          assert store[..numPairs] == out[me.pos := hp(me.left, me.right)];
          me := me.(pos := me.pos + 1, phase := LoadLeft);
          StoreKeepsProgress(hp, src, out, starts, ws, w, me);
      }
      StepDecreases(ws, w, me);
      ws := ws[w := me];
    }
    forall j | 0 <= j < numPairs
      ensures store[j] == hp(PadLeaf(leaves, 2 * j), PadLeaf(leaves, 2 * j + 1))
    {
      ProgressDone(hp, src, store[..numPairs], starts, ws, j);
    }
  }

  /** One memory access of one worker on an inner level. */
  method LevelAccess(hp: HashFn, store: array<Hash>, offset: nat, size: nat, ghost src: seq<Hash>,
                     ghost starts: seq<nat>, ws: seq<Worker>, w: nat) returns (me: Worker)
    requires size % 2 == 0 && offset + size + size / 2 <= store.Length
    requires store[offset..offset + size] == src && w < |ws| && ws[w].pos < ws[w].hi
    requires Progress(hp, src, store[offset + size..offset + size + size / 2], starts, ws)
    modifies store
    ensures Progress(hp, src, store[offset + size..offset + size + size / 2], starts, ws[w := me])
    ensures TotalPending(ws[w := me]) < TotalPending(ws)
    ensures forall c :: 0 <= c < store.Length && !(offset + size <= c < offset + size + size / 2) ==>
      store[c] == old(store[c])
  {
    hide Progress, Partition, Pending, TotalPending;
    var base := offset + size;
    ghost var out := store[base..base + size / 2];
    RunnableWorker(hp, src, out, starts, ws, w);
    me := ws[w];
    match me.phase {
      case LoadLeft =>
        me := me.(left := store[offset + 2 * me.pos], phase := LoadRight);
        LoadKeepsProgress(hp, src, out, starts, ws, w, me);
      case LoadRight =>
        me := me.(right := store[offset + 2 * me.pos + 1], phase := StoreParent);
        LoadKeepsProgress(hp, src, out, starts, ws, w, me);
      case StoreParent =>
        store[base + me.pos] := hp(me.left, me.right);
        assert store[base..base + size / 2] == out[me.pos := hp(me.left, me.right)];
        me := me.(pos := me.pos + 1, phase := LoadLeft);
        StoreKeepsProgress(hp, src, out, starts, ws, w, me);
    }
    StepDecreases(ws, w, me);
  }

  /** One inner level hashed by chunked workers: reads stay below offset + size, writes at or above it. */
  method ParallelHashLevel(hp: HashFn, store: array<Hash>, offset: nat, size: nat, numWorkers: nat)
    requires size % 2 == 0 && offset + size + size / 2 <= store.Length && numWorkers > 0
    modifies store
    ensures forall j :: 0 <= j < size / 2 ==>
      store[offset + size + j] == hp(old(store[offset + 2 * j]), old(store[offset + 2 * j + 1]))
    ensures forall c :: 0 <= c < store.Length && !(offset + size <= c < offset + size + size / 2) ==>
      store[c] == old(store[c])
  {
    hide Progress, Partition, Pending, TotalPending;
    var numPairs := size / 2;
    var base := offset + size;
    ghost var src := store[offset..base];
    var ws, starts := SpawnWorkers(numPairs, numWorkers);
    SpawnProgress(hp, src, store[base..base + numPairs], starts, ws);
    while exists w :: 0 <= w < |ws| && ws[w].pos < ws[w].hi
      invariant Progress(hp, src, store[base..base + numPairs], starts, ws)
      invariant forall c :: 0 <= c < store.Length && !(base <= c < base + numPairs) ==> store[c] == old(store[c])
      decreases TotalPending(ws)
    {
      var w :| 0 <= w < |ws| && ws[w].pos < ws[w].hi;
      var me := LevelAccess(hp, store, offset, size, src, starts, ws, w);
      ws := ws[w := me];
    }
    forall j | 0 <= j < numPairs
      ensures store[base + j] == hp(old(store[offset + 2 * j]), old(store[offset + 2 * j + 1]))
    {
      ProgressDone(hp, src, store[base..base + numPairs], starts, ws, j);
    }
  }

  // ---- Serial loops ----------------------------------------------------------------------------

  method HashLeafPairs(hp: HashFn, leaves: seq<Hash>, store: array<Hash>, pad: nat)
    requires |leaves| > 0 && pad % 2 == 0 && pad / 2 <= store.Length
    modifies store
    ensures forall j :: 0 <= j < pad / 2 ==> store[j] == hp(PadLeaf(leaves, 2 * j), PadLeaf(leaves, 2 * j + 1))
    ensures forall j :: pad / 2 <= j < store.Length ==> store[j] == old(store[j])
  {
    var i := 0;
    while i < pad
      invariant i % 2 == 0 && i <= pad
      invariant forall j :: 0 <= j < i / 2 ==> store[j] == hp(PadLeaf(leaves, 2 * j), PadLeaf(leaves, 2 * j + 1))
      invariant forall j :: pad / 2 <= j < store.Length ==> store[j] == old(store[j])
    {
      var l := PadLeaf(leaves, i);
      var r := PadLeaf(leaves, i + 1);
      store[i / 2] := hp(l, r);
      assert i == 2 * (i / 2);
      i := i + 2;
    }
  }

  method HashLevel(hp: HashFn, store: array<Hash>, offset: nat, size: nat)
    requires size % 2 == 0 && offset + size + size / 2 <= store.Length
    modifies store
    ensures forall j :: 0 <= j < size / 2 ==>
      store[offset + size + j] == hp(old(store[offset + 2 * j]), old(store[offset + 2 * j + 1]))
    ensures forall c :: 0 <= c < store.Length && !(offset + size <= c < offset + size + size / 2) ==>
      store[c] == old(store[c])
  {
    var i := 0;
    while i < size
      invariant i % 2 == 0 && i <= size
      invariant forall j :: 0 <= j < i / 2 ==>
        store[offset + size + j] == hp(old(store[offset + 2 * j]), old(store[offset + 2 * j + 1]))
      invariant forall c :: 0 <= c < store.Length && !(offset + size <= c < offset + size + i / 2) ==>
        store[c] == old(store[c])
    {
      store[offset + size + i / 2] := hp(store[offset + i], store[offset + i + 1]);
      assert i == 2 * (i / 2);
      i := i + 2;
    }
  }

  // ---- BuildMerkleStore ------------------------------------------------------------------------

  lemma NextCell(hp: HashFn, leaves: seq<Hash>, before: seq<Hash>, after: seq<Hash>, h: nat, k: nat, i: nat)
    requires |leaves| > 0 && 1 <= k < h
    requires CellHolds(hp, leaves, before, h, k, 2 * i) && CellHolds(hp, leaves, before, h, k, 2 * i + 1)
    requires 0 <= LevelStart(h, k + 1) + i < |after|
    requires after[LevelStart(h, k + 1) + i] == hp(before[LevelStart(h, k) + 2 * i], before[LevelStart(h, k) + 2 * i + 1])
    ensures CellHolds(hp, leaves, after, h, k + 1, i)
  {
    hide LevelStart;
  }

  lemma KeptCell(hp: HashFn, leaves: seq<Hash>, before: seq<Hash>, after: seq<Hash>, h: nat, l: nat, i: nat)
    requires |leaves| > 0 && 1 <= l <= h && CellHolds(hp, leaves, before, h, l, i)
    requires LevelStart(h, l) + i < |after| && after[LevelStart(h, l) + i] == before[LevelStart(h, l) + i]
    ensures CellHolds(hp, leaves, after, h, l, i)
  {
    hide LevelStart, Node;
  }

  /** Level k+1 follows from level k: what one pass of the level loop establishes. */
  lemma LevelFilled(hp: HashFn, leaves: seq<Hash>, before: seq<Hash>, after: seq<Hash>, h: nat, k: nat)
    requires |leaves| > 0 && 1 <= k < h && |before| == |after| == Pow2(h) - 1
    requires Filled(hp, leaves, before, h, k)
    requires 0 <= LevelStart(h, k) && Pow2(h - k) == 2 * Pow2(h - k - 1)
    requires LevelStart(h, k + 1) + Pow2(h - k - 1) <= |after|
    requires LevelStart(h, k + 1) == LevelStart(h, k) + Pow2(h - k)
    requires forall j :: 0 <= j < Pow2(h - k - 1) ==>
      after[LevelStart(h, k + 1) + j] == hp(before[LevelStart(h, k) + 2 * j], before[LevelStart(h, k) + 2 * j + 1])
    requires forall c :: 0 <= c < LevelStart(h, k + 1) ==> after[c] == before[c]
    ensures Filled(hp, leaves, after, h, k + 1)
  {
    hide LevelStart, Node, Pow2, CellHolds;
    forall l, i | 1 <= l <= k + 1 && 0 <= i < Pow2(h - l)
      ensures CellHolds(hp, leaves, after, h, l, i)
    {
      if l == k + 1 {
        NextCell(hp, leaves, before, after, h, k, i);
      } else {
        LevelStartNext(h, l);
        LevelsInOrder(h, l, k);
        KeptCell(hp, leaves, before, after, h, l, i);
      }
    }
  }

  lemma FirstLevelFilled(hp: HashFn, leaves: seq<Hash>, store: seq<Hash>, h: nat)
    requires |leaves| > 0 && h >= 1 && |store| == Pow2(h) - 1
    requires forall j :: 0 <= j < Pow2(h - 1) ==> j < |store| && store[j] == hp(PadLeaf(leaves, 2 * j), PadLeaf(leaves, 2 * j + 1))
    ensures Filled(hp, leaves, store, h, 1)
  {
    forall k, i | 1 <= k <= 1 && 0 <= i < Pow2(h - k)
      ensures CellHolds(hp, leaves, store, h, k, i)
    {
      assert store[i] == hp(PadLeaf(leaves, 2 * i), PadLeaf(leaves, 2 * i + 1));
    }
  }

  method BuildFirstLevel(hp: HashFn, leaves: seq<Hash>, cells: array<Hash>, ghost h: nat, pad: nat, numCPU: nat)
    requires |leaves| > 0 && h >= 1 && pad == Pow2(h) && cells.Length == Pow2(h) - 1
    modifies cells
    ensures Filled(hp, leaves, cells[..], h, 1)
  {
    hide Filled;
    assert pad == 2 * Pow2(h - 1);
    var numPairs := pad / 2;
    if numPairs >= PARALLEL_THRESHOLD && numCPU > 1 {
      ParallelHashLeafPairs(hp, leaves, cells, pad, numCPU);
    } else {
      HashLeafPairs(hp, leaves, cells, pad);
    }
    FirstLevelFilled(hp, leaves, cells[..], h);
  }

  lemma NextLevelSize(h: nat, k: nat)
    requires k < h
    ensures Pow2(h - k) == 2 * Pow2(h - k - 1) && Pow2(h - k) / 2 == Pow2(h - k - 1)
  {}

  method BuildNextLevel(hp: HashFn, leaves: seq<Hash>, cells: array<Hash>, ghost h: nat, ghost k: nat,
                        offset: nat, size: nat, numCPU: nat)
    requires |leaves| > 0 && 1 <= k < h && size == Pow2(h - k) && offset == LevelStart(h, k)
    requires cells.Length == Pow2(h) - 1 && Filled(hp, leaves, cells[..], h, k)
    modifies cells
    ensures Filled(hp, leaves, cells[..], h, k + 1)
  {
    hide Filled, LevelStart, Pow2;
    LevelStartNext(h, k);
    LevelStartNext(h, k + 1);
    NextLevelSize(h, k);
    ghost var before := cells[..];
    if size / 2 >= PARALLEL_THRESHOLD && numCPU > 1 {
      ParallelHashLevel(hp, cells, offset, size, numCPU);
    } else {
      HashLevel(hp, cells, offset, size);
    }
    LevelFilled(hp, leaves, before, cells[..], h, k);
  }

  /** BuildMerkleStore: numCPU stands for runtime.NumCPU(). */
  method BuildMerkleStore(hp: HashFn, leaves: seq<Hash>, numCPU: nat) returns (store: seq<Hash>)
    ensures |leaves| == 0 ==> store == []
    ensures |leaves| == 1 ==> store == [leaves[0]]
    ensures |leaves| >= 2 ==> IsStore(hp, leaves, store)
    ensures |leaves| >= 1 ==> |store| > 0 && store[|store| - 1] == Root(hp, leaves)
  {
    hide Filled;
    var n := |leaves|;
    if n == 0 { return []; }
    if n == 1 { return [leaves[0]]; }
    var pad := NextPowerOfTwo(n);
    ghost var h := Log2(n);
    var cells := new Hash[pad - 1];
    BuildFirstLevel(hp, leaves, cells, h, pad, numCPU);

    var offset := 0;
    var size := pad / 2;
    ghost var k := 1;
    while size > 1
      invariant 1 <= k <= h && size == Pow2(h - k) && offset == LevelStart(h, k)
      invariant Filled(hp, leaves, cells[..], h, k)
      decreases size
    {
      var nextSize := size / 2;
      BuildNextLevel(hp, leaves, cells, h, k, offset, size, numCPU);
      LevelStartNext(h, k);
      offset := offset + size;
      size := nextSize;
      k := k + 1;
    }
    store := cells[..];
    StoreRoot(hp, leaves, store);
  }

  method MerkleRoot(hp: HashFn, leaves: seq<Hash>, numCPU: nat) returns (root: Option<Hash>)
    ensures root == if |leaves| == 0 then None else Some(Root(hp, leaves))
  {
    if |leaves| == 0 { return None; }
    var store := BuildMerkleStore(hp, leaves, numCPU);
    root := Some(store[|store| - 1]);
  }

  // ---- Proofs ----------------------------------------------------------------------------------

  /** The sibling position is in range at every level, so the defensive clamp changes nothing. */
  lemma ClampNeverTaken(n: nat, index: nat, level: nat)
    requires index < n && 1 <= level < Log2(n)
    ensures Sib(Shr(index, level)) < Pow2(Log2(n) - level)
  {
    Log2Bounds(n);
    ShrBound(index, Log2(n), level);
    SibBound(Shr(index, level), Log2(n) - level);
  }

  /** The leaf-level sibling read with its bound check is the padded sibling. */
  lemma LeafSibling(hp: HashFn, leaves: seq<Hash>, index: nat)
    requires index < |leaves|
    ensures leaves[if Sib(index) >= |leaves| then index else Sib(index)] == Node(hp, leaves, 0, Sib(Shr(index, 0)))
  {}

  lemma StoreSibling(hp: HashFn, leaves: seq<Hash>, store: seq<Hash>, index: nat, level: nat)
    requires |leaves| >= 2 && index < |leaves| && 1 <= level < Log2(|leaves|)
    requires IsStore(hp, leaves, store)
    ensures var sib := Sib(Shr(index, level));
            var c := LevelStart(Log2(|leaves|), level) + sib;
            sib < Pow2(Log2(|leaves|) - level) && 0 <= c < |store| && store[c] == Node(hp, leaves, level, sib)
  {
    hide Sib, Shr, Pow2, Node;
    ClampNeverTaken(|leaves|, index, level);
    assert CellHolds(hp, leaves, store, Log2(|leaves|), level, Sib(Shr(index, level)));
  }

  lemma FirstLevelStart(h: nat)
    requires h >= 1
    ensures LevelStart(h, 1) == 0 && Pow2(h) / 2 == Pow2(h - 1)
  {}

  method ProofFromStore(ghost hp: HashFn, leaves: seq<Hash>, store: seq<Hash>, index: nat, height: nat)
    returns (proof: seq<Hash>)
    requires |leaves| >= 2 && index < |leaves| && height == Log2(|leaves|)
    requires IsStore(hp, leaves, store)
    ensures proof == ProofOf(hp, leaves, index)
  {
    hide IsStore, Node, Sib, LevelStart, Shr, Pow2;
    var n := |leaves|;
    var cells := new Hash[height];
    var sibIdx := Sib(index);
    if sibIdx >= n { sibIdx := index; }
    LeafSibling(hp, leaves, index);
    cells[0] := leaves[sibIdx];
    var pad := NextPowerOfTwo(n);
    var offset := 0;
    var size := pad / 2;
    var level := 1;
    FirstLevelStart(height);
    while level < height
      invariant 1 <= level <= height
      invariant size == Pow2(height - level) && offset == LevelStart(height, level)
      invariant forall k :: 0 <= k < level ==> cells[k] == Node(hp, leaves, k, Sib(Shr(index, k)))
    {
      var sibPos: int := Sib(Shr(index, level));
      if sibPos >= size { sibPos := size - 1; }
      StoreSibling(hp, leaves, store, index, level);
      cells[level] := store[offset + sibPos];
      LevelStartNext(height, level);
      NextLevelSize(height, level);
      offset := offset + size;
      size := size / 2;
      level := level + 1;
    }
    proof := cells[..];
  }

  method GetMerkleProof(hp: HashFn, leaves: seq<Hash>, index: int, numCPU: nat) returns (r: Result<seq<Hash>>)
    ensures r.Success? <==> 0 <= index < |leaves|
    ensures r.Success? ==> r.value == ProofOf(hp, leaves, index)
  {
    var n := |leaves|;
    if index < 0 || index >= n { return Failure("index out of range"); }
    if n == 1 {
      return Success([]);
    }
    var height := Log2Ceil(n);
    var store := BuildMerkleStore(hp, leaves, numCPU);
    var proof := ProofFromStore(hp, leaves, store, index, height);
    r := Success(proof);
  }

  /** A single leaf has no path cell 0 to write: with n == 1 the source panics, hence the requires. */
  method GetProofFromStore(ghost hp: HashFn, leaves: seq<Hash>, store: seq<Hash>, index: int)
    returns (r: Result<seq<Hash>>)
    requires |leaves| >= 2 ==> IsStore(hp, leaves, store)
    requires |leaves| == 1 ==> index != 0
    ensures r.Success? <==> 0 <= index < |leaves|
    ensures r.Success? ==> r.value == ProofOf(hp, leaves, index)
  {
    var n := |leaves|;
    if index < 0 || index >= n { return Failure("index out of range"); }
    var height := Log2Ceil(n);
    var proof := ProofFromStore(hp, leaves, store, index, height);
    r := Success(proof);
  }

  /** One proof per leaf; the same single-leaf panic as above. */
  method GetAllProofs(hp: HashFn, leaves: seq<Hash>, numCPU: nat) returns (proofs: seq<seq<Hash>>)
    requires |leaves| != 1
    ensures |proofs| == |leaves|
    ensures forall i :: 0 <= i < |leaves| ==> proofs[i] == ProofOf(hp, leaves, i)
  {
    hide IsStore, ProofOf;
    var n := |leaves|;
    if n == 0 { return []; }
    var height := Log2Ceil(n);
    var store := BuildMerkleStore(hp, leaves, numCPU);
    proofs := [];
    for i := 0 to n
      invariant |proofs| == i
      invariant forall j :: 0 <= j < i ==> proofs[j] == ProofOf(hp, leaves, j)
    {
      var proof := ProofFromStore(hp, leaves, store, i, height);
      proofs := proofs + [proof];
    }
  }
}
