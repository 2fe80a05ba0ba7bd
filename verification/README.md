# STUMPT proof engine in Dafny

STUMPT builds one compound Merkle proof (a BUMP, in the binary format of BRC-74) per token for a block whose tree is
split into fixed-size subtrees joined by a top tree. This project models its proof engine, its block life cycle and
its disk-backed list and store, and proves what they are for. `dafny verify dfyconfig.toml` checks all of it.

The headline is `Harness.RunBlock`: for every block, every per-miner jitter, every winner and every coinbase, after
sealing, finalizing and processing, each txid of the winner's block whose data could be read for its token is listed in
the token's BUMP, and a reader that knows only the BUMP bytes computes from it the root over the winner's subtree roots.

How the pieces fit:

- Hashes are opaque 32-byte values and the pair hash is a parameter `hp`, so every theorem holds for every function of
  two hashes; no collision assumption is made anywhere.
- `Tree`, `Block`: the Merkle tree as a recursive node function over leaves padded with the last leaf, and the whole
  block as one tree over global indices. Everything imperative is proved against these.
- `MerkleStore`: the flat store filled in place, serially or by chunked workers. A worker is a small state machine
  (load left, load right, hash and store, next pair) and the scheduler may pick any runnable worker at every memory
  access, so a contract holds for every interleaving.
- `Emit`: what the three assembly loops append, as a function of the positions. `Canon`: the level a set of owned
  leaves calls for, stated without reference to any loop. `Validity`: any path with canonical levels, sorted and
  pruned, proves every owned txid. `Redundancy`: which of its entries a verifier could do without. `Compound`: the
  fragment and just-in-time paths are canonical. `SingleTxid`: what a one-txid token's path computes for any subtree
  size; `PowerOfTwo`: for which sizes that is the root.
- `Bump`: the verifier. `Resolve` looks a node up in the path, computing it from its two children when it is not
  listed; `ComputeRoot` finds the txid at level 0 and climbs. `BumpCodec.ReadBump` is a reader written from the BRC-74
  layout.
- `Worker`, `Finish`, `Jit`, `Fragments`, `Legacy`: the source's loops on the source's state (levels, bitset words,
  output buffer), each proved equal to the specification of `Emit`.
- `Ledger`, `Sealing`, `Registry`, `Cache`, `Pipeline`, `Process`, `Pool`, `Harness`: the life cycle as a class over
  roots, stored subtrees, fragments and token indexes; what it means that these agree; the cache; one token's
  processing; the workers that share queue and cache under any schedule; and the whole run.
- `Db`, `TxidList`, `Encoding`, `EntryLists`, `StumpStore`, `Stump`: the byte-keyed database, the buffered list against
  a plain sequence, the entry codecs, and the disk store against the in-memory one.

Some properties are exact conditions rather than plain facts, because the code does not meet them everywhere:

- Both assemblies prove every txid of every block of distinct txids if and only if the subtree size is a power of two
  (`PowerOfTwo.ValidIffPowerOfTwo`). The harness only checks that it divides the block size (cmd/harness/main.go:94).
  The failure is not one of a weak hash: for every pair hash, a token that holds only the second subtree's first txid
  leads a verifier to the hash of some value and the first subtree's root, where the block root is the hash of both
  subtree roots (`PowerOfTwo.SecondFirstComputes`).
- The bitset and map dedups emit the same entries for all positions if and only if the subtree size is a power of two;
  for any other size they differ on every block whose subtree 1 is loaded (`Legacy.DedupsAgreeIffPowerOfTwo`).
- A raw path determines the finished one if and only if no sibling pair is wholly owned, because the sort is not stable
  (`Validity.FinishedDetermined`).
- A finished path holds nothing that a verifier could recompute from the rest of it if and only if no node from level 2
  up has an owned leaf in only one of its halves while its sibling has one too (`Redundancy.MinimalIff`).
- After the coinbase swap the index still files every position under its own leaf's token if and only if old and new
  coinbase derive the same token (`Ledger.SwapKeepsFiling`); the proofs do not depend on it.
- Codec round trips hold exactly when the counts and fields fit the bytes they are stored in.
- The disk stump store and the in-memory one answer alike exactly when every entry fits its four-byte fields
  (`StumpStore.StoresAgree`); discovery over both, after any run of calls, gives one answer exactly when every entry
  found fits (`Stump.DiscoverAfter`).
- A stump store reopened over a log starts counting at zero again, so any run of appends extends the log if and only if
  log or run is empty (`StumpStore.ReopenExtends`). Each key loses one old entry for every number under which it is
  written again, and none otherwise (`StumpStore.ReopenLoses`). A key's answer is its old entries and then its new ones
  when every new number of the key is past every old one, and no other time if no old entry reads back as a new one
  (`StumpStore.ReopenedAnswer`).
- The cache is commented as LRU-ish with an access order (internal/merkleservice/bump.go:21-26), but a lookup does not
  touch the order. The order is first-in first-out (`Cache.EveryInterleaving`); it is also the order of last use
  throughout a run if and only if every hit of the run is on the subtree added last (`Cache.RecencyIffNewestHits`).
  Hits on older subtrees need not show: a run may end before anything is evicted, or the wrong order may agree on what
  goes next. For a bound from 1 up to below the number of subtrees on disk, such hits are absent exactly when from every
  moment of the run on, whatever is missed next, only the subtree used longest ago is ever evicted
  (`Cache.RecentEvictionIff`). `Cache.NotLeastRecentlyUsed` is a run that evicts the subtree just looked up.

Preconditions follow what the code demands of its callers: at least two hashes a subtree, at least two subtrees,
distinct txids in a block (the reverse index of internal/merkleservice/registry.go:95-98 keeps one position a txid).
`Pipeline.Provable` adds the power-of-two size and the integer widths: one byte of tree height, int indices, four-byte
entry counts.

## Model

| member | source | states |
|---|---|---|
| Arith.NextPowerOfTwo | internal/subtree/subtree.go:37-43 | the least power of two not below n, and 1 for 0 |
| Arith.Log2Ceil | internal/subtree/subtree.go:46-52 | the least height whose power of two reaches n |
| Tree.OneLeaf | internal/subtree/subtree.go:175-182 | the root over one leaf is the leaf |
| Tree.RootOfHalves | internal/subtree/subtree.go:63-76 | the root over two halves of 2^h leaves each is the pair hash of their roots, left first |
| Tree.RootOfPadded | internal/subtree/subtree.go:63-76 | repeating the last leaf up to the next power of two leaves the root as it is |
| Tree.StoreRoot | internal/subtree/subtree.go:74 | the last cell of a store is the root |
| Tree.StoreUnique | internal/subtree/subtree.go:63-76 | leaves determine their flat store: the layout leaves no freedom |
| Tree.ProofRoundTrip | internal/subtree/subtree.go:186-195 | every index's path has one sibling a level and folds by index parity to the root |
| MerkleStore.SpawnWorkers | internal/subtree/subtree.go:121-144 | the chunks are disjoint, in order, and cover every pair |
| MerkleStore.ParallelHashLeafPairs | internal/subtree/subtree.go:121-146 | under any interleaving of the workers, cell j is the hash of padded leaves 2j and 2j+1 and no other cell changes |
| MerkleStore.LevelAccess | internal/subtree/subtree.go:163-168 | one memory access of one worker: reads of the level below are unaffected by writes, finished pairs stay finished, and the work left shrinks |
| MerkleStore.ParallelHashLevel | internal/subtree/subtree.go:149-172 | under any interleaving the next level holds the pair hashes of this one as it was on entry, and nothing else changes |
| MerkleStore.HashLeafPairs | internal/subtree/subtree.go:94-98 | the serial loop meets the contract of the parallel one |
| MerkleStore.HashLevel | internal/subtree/subtree.go:109-111 | the serial loop meets the contract of the parallel one |
| MerkleStore.BuildFirstLevel | internal/subtree/subtree.go:89-99 | level 1 holds the recursively defined nodes, whichever loop ran |
| MerkleStore.BuildNextLevel | internal/subtree/subtree.go:101-115 | from levels 1..k filled with the tree's nodes, levels 1..k+1 are |
| MerkleStore.BuildMerkleStore | internal/subtree/subtree.go:76-118 | for every n >= 2 each cell of level k, at pad - pad/2^(k-1), is the tree's node; the last cell is the root; n = 0 and n = 1 as the source has them |
| MerkleStore.MerkleRoot | internal/subtree/subtree.go:175-182 | the root of the padded tree, none for no leaves |
| MerkleStore.ClampNeverTaken | internal/subtree/subtree.go:238-243 | the defensive clamp is dead: the sibling position is always within its level |
| MerkleStore.ProofFromStore | internal/subtree/subtree.go:222-251 | the store walk reads exactly the siblings of the index's ancestors |
| MerkleStore.GetMerkleProof | internal/subtree/subtree.go:195-208 | fails exactly on an index out of range, and otherwise returns the tree's path (empty for one leaf) |
| MerkleStore.GetProofFromStore | internal/subtree/subtree.go:212-219 | the same from a pre-built store |
| MerkleStore.GetAllProofs | internal/subtree/subtree.go:257-269 | one path per leaf, each the tree's |
| Block.TwoTierRoot | internal/merkleservice/registry.go:58-68 | the root over subtree roots is the root of the block as one tree over global indices |
| Block.OneTree | internal/merkleservice/bump.go:657-658 | with a power-of-two number of subtrees, subtree path followed by top-tree path is the one-tree path of the global index, and the roots agree |
| Block.SiblingNode | internal/merkleservice/bump.go:503-513 | the block node at (g >> k) ^ 1 is the subtree's local sibling below the subtree height and the top tree's above it |
| Bump.PruneResolves | internal/merkleservice/bump.go:381-406 | whatever was listed before pruning can still be found or recomputed after it |
| Bump.PruneSound | internal/merkleservice/bump.go:391-406 | ... and with the same hash: pruning loses no information |
| Canon.KeyMeansAncestor | internal/merkleservice/bump.go:475-516 | for a power-of-two size either dedup key (place in the subtree, or global offset) identifies exactly the shared ancestor |
| Canon.EmittedCanonical | internal/merkleservice/bump.go:457-541 | either dedup, over any positions, emits exactly the level its owned leaves call for, without repeats |
| Validity.ListedComputesRoot | internal/merkleservice/bump.go:415-584 | any hash listed at level 0 of a finished path computes the block root |
| Validity.LeafClimbs | internal/merkleservice/bump.go:415-584 | from an owned leaf, or its sibling, climbing the finished path gives the block root |
| Validity.EndToEnd | internal/merkleservice/bump.go:412-584 | the flagged txids of a finished path are exactly the owned leaves, and every level-0 entry computes the root over the subtree roots |
| Validity.ExactContent | internal/merkleservice/bump.go:554-580 | which offsets each pruned level lists: level 0 the owned pairs; level 1 o iff pair o^1 is owned and pair o is not; level h o iff o^1 has an owned leaf and not both children of o do |
| Redundancy.ResolvesIff | internal/merkleservice/bump.go:554-580 | from a finished path a verifier can resolve exactly the nodes with an owned leaf below them or below their sibling |
| Redundancy.RedundantIff | internal/merkleservice/bump.go:554-580 | a surviving entry can be recomputed from the rest exactly when it is above level 0 and an owned leaf lies below it |
| Redundancy.MinimalIff | internal/merkleservice/bump.go:554-580 | a finished path has no such entry exactly when no node from level 2 up, with an owned leaf beside it, has one in only one of its halves |
| Validity.OffsetsStrict | internal/merkleservice/bump.go:547-552 | offsets are strictly increasing above level 0, and at level 0 exactly when no pair is wholly owned |
| Validity.AssembliesAgree | internal/merkleservice/bump.go:318-410 | two assemblies of the same owned leaves hold the same entries at every level |
| Validity.AssembliesIdentical | internal/merkleservice/bump.go:547-552 | ... and are equal when no pair is wholly owned |
| Validity.FinishedDetermined | internal/merkleservice/bump.go:458-460 | the raw levels fix the finished path exactly when no pair is wholly owned |
| Worker.BitsetCheck | internal/merkleservice/bump.go:131-139 | answers set membership and inserts, leaving every other member as it was |
| Worker.WorkerState.Reset | internal/merkleservice/bump.go:106-115 | the used levels and the output are empty, missing levels are added, the rest untouched |
| Worker.WorkerState.EnsureBitset | internal/merkleservice/bump.go:118-128 | room for the words asked for, and no member among them, whatever the buffer held |
| Worker.EmitLeaves | internal/merkleservice/bump.go:457-487 | level 0 of one subtree's run gains exactly the specified entries, every bit index in bounds |
| Worker.EmitLevel | internal/merkleservice/bump.go:489-520 | the same at a store level |
| Worker.EmitSubtree | internal/merkleservice/bump.go:454-519 | all subtree levels of a run, from any earlier worker contents |
| Finish.SortLevels | internal/merkleservice/bump.go:547-552 | each used level becomes a sorted permutation of itself |
| Finish.CompactLevel | internal/merkleservice/bump.go:567-579 | the in-place compaction keeps, in order, exactly the entries without both children below |
| Finish.PruneLevels | internal/merkleservice/bump.go:554-580 | every level keeps exactly the entries not prunable against the unpruned level below |
| Finish.SortThenPrune | internal/merkleservice/bump.go:547-580 | pruning a sorted level gives a sort of the pruned unsorted one |
| Finish.FinishBump | internal/merkleservice/bump.go:543-584 | the shared tail: the levels end finished, and the bytes are theirs |
| Jit.FindRunEnd | internal/merkleservice/bump.go:439-446 | a run is one subtree's positions, and cuts the order between subtrees |
| Jit.EmitRuns | internal/merkleservice/bump.go:440-522 | the subtree levels hold what the positions of loaded subtrees emit; runs of missing subtrees add nothing |
| Jit.EmitTopLevel | internal/merkleservice/bump.go:524-541 | one entry per offset, with the top-tree sibling of the first position to reach it |
| Jit.AssembleTokenBumpFast | internal/merkleservice/bump.go:415-584 | fails only on no positions; otherwise the finished path of the positions in global order, whatever the worker held before |
| Fragments.ExtractSubtreeFragment | internal/merkleservice/bump.go:145-243 | each level of the fragment is a sort of what the ascending local indices emit, whatever the worker held before |
| Fragments.LoadFragments | internal/merkleservice/bump.go:336-345 | succeeds exactly when every fragment parses, and then holds their levels end to end |
| Fragments.EmitTopFromTxids | internal/merkleservice/bump.go:347-371 | a top level from the level-0 txid entries in the order they were joined |
| Fragments.AssembleTokenBumpFromFragments | internal/merkleservice/bump.go:321-410 | fails exactly on no fragments or one that does not parse; otherwise the finished path of the joined fragments |
| Compound.JitCanonical | internal/merkleservice/bump.go:415-584 | the just-in-time path's raw levels are canonical for the loaded positions (and, above the subtrees, for all) |
| Compound.JitEndToEnd | internal/merkleservice/bump.go:415-584 | its bytes read back as the whole path, and every loaded txid in it computes the top-tree root |
| Compound.PieceParses | internal/merkleservice/bump.go:247-316 | a stored fragment unmarshals to the extraction it was marshalled from |
| Compound.FragmentsCanonical | internal/merkleservice/bump.go:336-371 | the fragment path's raw levels are canonical for the leaves its fragments own, in whatever order they come |
| Compound.FragmentEndToEnd | internal/merkleservice/bump.go:321-410 | its bytes read back as the whole path; each loaded fragment's txids, and no others, are flagged, and each computes the root |
| Compound.PathsAgree | internal/merkleservice/bump.go:321-584 | fragment path and just-in-time path hold the same entries at every level, and the same bytes when no pair is wholly owned |
| SingleTxid.JitHoldsOne | internal/merkleservice/bump.go:415-541 | before sorting, the just-in-time path of one position lists its txid and one sibling a level, for any subtree size |
| SingleTxid.FragmentHoldsOne | internal/merkleservice/bump.go:321-371 | so does the path from its one stored fragment, read back from its bytes |
| SingleTxid.SingleComputes | internal/merkleservice/bump.go:503-513 | for any subtree size and pair hash, a verifier computes the txid's true siblings folded by the bits of its global index |
| PowerOfTwo.SecondFirstComputes | internal/merkleservice/bump.go:503-513 | for every pair hash and a two-subtree block of any other size, the proof of the second subtree's first txid ends in hp(x, first root) instead of hp(first root, second root): right exactly when the two are equal, which without a collision takes equal roots |
| PowerOfTwo.ValidIffPowerOfTwo | internal/merkleservice/bump.go:503-513 | each of the two assemblies proves every txid of every sealed block of distinct txids exactly when the subtree size is a power of two |
| Legacy.BuildLeaves | internal/merkleservice/bump.go:913-945 | lastPair over the sorted positions emits what the pair bitset does, from at most two pool slots a position |
| Legacy.MergePosition | internal/merkleservice/bump.go:963-1001 | one position merged into the per-level maps, using at most one pool slot a level |
| Legacy.PruneMap | internal/merkleservice/bump.go:1018-1024 | deletes from a level's map exactly the offsets with both children below |
| Legacy.AssembleTokenBump | internal/merkleservice/bump.go:885-1040 | the older form: a finished path of the map-deduped entries, with the pool never outgrowing n*(totalHeight+2) |
| Legacy.DedupsAgree | internal/merkleservice/bump.go:457-519 | for a power-of-two size both dedups emit the same entries in the same order at every level |
| Legacy.DedupsAgreeOnIff | internal/merkleservice/bump.go:457-519 | for any one plan with subtree 1 loaded the dedups agree on all positions exactly when its size is a power of two |
| Legacy.DedupsAgreeIffPowerOfTwo | internal/merkleservice/bump.go:457-519 | over sealed blocks they agree on all for a power of two; for any other size they differ on every one with subtree 1 loaded |
| Legacy.LegacyAgrees | internal/merkleservice/bump.go:885-1040 | the older form and the just-in-time path finish with the same entries, equal when no pair is wholly owned |
| Bytes.LEAt | internal/merkleservice/bump.go:626-639 | byte i of a stored number is its digit at 256^i: the lowest first |
| Bytes.FromLEAt | internal/merkleservice/bump.go:293-306 | and the number read from bytes has them as these digits |
| Bytes.VarIntBytes | internal/merkleservice/bump.go:618-641 | byte by byte: a value below 253 alone; otherwise 253, 254 or 255 by its size, then two, four or eight bytes of it, the lowest first |
| Bytes.VarIntRoundTrip | internal/merkleservice/bump.go:618-641 | a VarInt reader gets every uint64 back, and the bytes after it |
| Bytes.VarIntShortest | internal/merkleservice/bump.go:617-641 | no encoding a reader accepts for the same value is shorter |
| BumpCodec.WriteVarInt | internal/merkleservice/bump.go:618-641 | appends the VarInt of the value |
| BumpCodec.SerializeBump | internal/merkleservice/bump.go:587-615 | writes exactly the specified bytes, over whatever the buffer held |
| BumpCodec.BumpLayout | internal/merkleservice/bump.go:587-615 | at which byte every part stands: block height, a byte of tree height, and for each level its count and each entry's offset, flag (2 for a txid, 0 otherwise) and hash |
| BumpCodec.BumpRoundTrip | internal/merkleservice/bump.go:587-615 | a BRC-74 reader recovers block height and levels and consumes all bytes exactly when there are under 256 levels |
| BumpCodec.BumpBytesInjective | internal/merkleservice/bump.go:587-615 | different paths or heights have different bytes |
| FragmentCodec.MarshalFragment | internal/merkleservice/bump.go:247-276 | fills a buffer of the computed size with exactly the fragment's bytes |
| FragmentCodec.FragmentLayout | internal/merkleservice/bump.go:245-276 | at which byte every part stands: a byte of level count, four bytes of each level's count, and for each entry eight bytes of offset, the flag and the hash |
| FragmentCodec.UnmarshalFragment | internal/merkleservice/bump.go:280-316 | never reads out of bounds, and answers as the recursive parser does on any bytes |
| FragmentCodec.ParseIff | internal/merkleservice/bump.go:280-316 | exactly which bytes parse and as what: those in which the levels stand one after the other, whatever follows; an entry is a txid exactly when the second bit of its flag byte is set |
| FragmentCodec.FragmentRoundTrip | internal/merkleservice/bump.go:247-316 | unmarshal after marshal is the identity exactly when there are under 256 levels with counts below 2^32 |
| FragmentCodec.BytesRoundTrip | internal/merkleservice/bump.go:280-316 | marshal after unmarshal is the identity exactly on data with flags 0 or 2 and nothing trailing |
| TokenIndex.NameSpells | internal/merkleservice/registry.go:109-113 | a token's name is "token-" and its number in decimal, a digit for each power of ten and no leading zero |
| TokenIndex.NameSamples | internal/merkleservice/bump.go:671-675 | token 7 is named "token-7", token 120 "token-120" |
| TokenIndex.NameRoundTrip | internal/merkleservice/registry.go:241-243 | scanning "token-N" gives N back, so token names are distinct |
| TokenIndex.TokenSubtreeIndex.Add | internal/merkleservice/token_subtree_index.go:26-35 | one position appended at one place, every other list unchanged |
| TokenIndex.TokenSubtreeIndex.AddBatch | internal/merkleservice/token_subtree_index.go:38-50 | a batch appended at one place; an empty batch creates nothing |
| TokenIndex.TokenSubtreeIndex.Get | internal/merkleservice/token_subtree_index.go:53-61 | the list at a place, empty when there is none |
| TokenIndex.TokenSubtreeIndex.Tokens | internal/merkleservice/token_subtree_index.go:64-72 | exactly the tokens with a position somewhere, once each, in any order |
| TokenIndex.TokenSubtreeIndex.SubtreeIndices | internal/merkleservice/token_subtree_index.go:75-87 | exactly the subtrees with a position of the token, once each, in any order |
| Bytes.HashBytesAt | internal/merkleservice/registry.go:276-282 | hash i takes the 32 bytes from 32 * i on |
| Bytes.HashesRoundTrip | internal/merkleservice/registry.go:275-292 | hashes survive the trip through their flat bytes |
| Ledger.HashSliceToBytes | internal/merkleservice/registry.go:276-282 | the hashes' bytes end to end |
| Ledger.BytesToHashSlice | internal/merkleservice/registry.go:285-292 | the whole hashes of any bytes, a partial tail dropped |
| Ledger.OneSwap | internal/merkleservice/registry.go:308-311 | no draws leave the txids as they are; one draw exchanges the txids at its position and the next, and no other |
| Ledger.SwappedRuns | internal/merkleservice/registry.go:308-311 | a run of draws and then another is the second run on what the first left |
| Ledger.NothingSwapped | internal/merkleservice/registry.go:301-303 | without draws, or with fewer than two txids, nothing moves |
| Ledger.SwappedPermutes | internal/merkleservice/registry.go:294-313 | any run of adjacent swaps conserves the txids |
| Ledger.JitterTxids | internal/merkleservice/registry.go:297-313 | the in-place loop performs the drawn swaps in order |
| Ledger.TokenBytes | internal/merkleservice/registry.go:109-110 | the token is the sum of the txid's first eight bytes times 1, 256, up to 256^7, modulo the number of businesses |
| Ledger.FiledBytes | internal/merkleservice/registry.go:94-119 | a position is in a token's list exactly when that sum over its leaf is the token modulo the number of businesses |
| Ledger.IndexSubtree | internal/merkleservice/registry.go:94-119 | each token's list holds, once each and in canonical order, exactly the positions of the canonical txids whose first eight bytes derive it |
| Ledger.CollectedIsFiled | internal/merkleservice/registry.go:109-119 | for a miner with all the txids that is every position of every token |
| Ledger.PositionsPartition | internal/merkleservice/registry.go:94-122 | every position of a subtree is filed once, under the token its own txid derives and no other |
| Ledger.ReplaceCoinbase | internal/merkleservice/registry.go:205-216 | the search loop replaces the first match, and reports whether there was one |
| Ledger.SwapHitsOne | internal/merkleservice/registry.go:205-213 | among distinct txids exactly the leaf of the old coinbase changes |
| Ledger.SwapKeepsFiling | internal/merkleservice/registry.go:205-249 | the index, which the swap does not touch, still files every position under its own leaf's token exactly when both coinbases derive one token |
| Sealing.SlicesJoin | internal/merkleservice/registry.go:44-47 | the slices of all subtrees, end to end, are the block's txids |
| Sealing.TxidPlaced | internal/merkleservice/registry.go:44-56 | for every miner, txid g of the block is among the sealed leaves of subtree g / hps and of no other |
| Sealing.BuildAll | internal/merkleservice/registry.go:51-69 | each miner's jittered leaves with the tree's store over them |
| Sealing.ExtractBatch | internal/merkleservice/registry.go:126-135 | a marshalled extraction for each token of the batch and for no other, with one worker |
| Registry.Registry.constructor | cmd/harness/main.go:209-219 | empty stores and one empty index a miner, all distinct |
| Registry.Registry.SaveSubtree | internal/merkleservice/registry.go:76-85 | records the root and stores leaves and store, and changes nothing else |
| Registry.Registry.SaveBatch | internal/diskstore/fragment.go:45-72 | writes each fragment of the batch under its key, in any order, and changes no other key |
| Registry.Registry.AddTokens | internal/merkleservice/registry.go:120-122 | appends each token's batch at its place, in any order, and touches no other miner's index |
| Registry.Registry.IndexMiner | internal/merkleservice/registry.go:91-139 | one miner's subtree ends indexed and with a fragment for exactly the tokens that have positions; all other places are as before |
| Registry.Registry.SealSubtree | internal/merkleservice/registry.go:44-146 | after one boundary every miner's leaves, store, root, index and fragments agree, and other subtrees are as before |
| Registry.Registry.SealSubtreesToDisk | internal/merkleservice/registry.go:26-158 | after sealing, for every miner and subtree, stored leaves, stored store, recorded root, index and every token's fragment agree; every miner has each txid g of the block on disk in subtree g / hps and in no other |
| Registry.Registry.ExtractAgain | internal/merkleservice/registry.go:228-249 | fresh fragments for exactly the tokens with positions in the subtree, their indices scanned back from their names |
| Registry.Registry.FinalizeBlock | internal/merkleservice/registry.go:163-271 | from whatever leaves are stored, the winner's subtree 0 holds them with the coinbase replaced, their store and root, and new fragments for exactly the tokens with positions; everything else is as before; it fails exactly when the subtree is not stored |
| Sealing.ResealedCoherent | internal/merkleservice/registry.go:197-256 | if leaves, store, root, index and fragments agreed before, they agree again over the new leaves |
| Cache.SubtreeCache.Put | internal/merkleservice/bump.go:54-68 | present entries stay; at capacity the oldest goes; the order stays a duplicate-free listing within the bound |
| Cache.PutKept | internal/merkleservice/bump.go:54-68 | a put keeps the order a duplicate-free listing of the keys, within the bound |
| Cache.StepFaithful | internal/merkleservice/bump.go:769-787 | every step of any worker keeps the cache, what workers hold, and what loads returned, faithful to the disk |
| Cache.EveryInterleaving | internal/merkleservice/bump.go:769-787 | over every interleaving of get, read and put, loads return the stored subtree, the bound holds, and the cached subtrees are the latest added: first-in first-out |
| Cache.ReachedRecency | internal/merkleservice/bump.go:21-68 | along every run the reference order, which a hit moves to the back, lists the cached subtrees by their last use |
| Cache.RecencyIffNewestHits | internal/merkleservice/bump.go:44-68 | the cache's order is that order at every moment of a run exactly when every hit of the run is on the subtree added last |
| Cache.EvictsByRecencyIff | internal/merkleservice/bump.go:54-68 | from a state of any run, every eviction that misses alone lead to removes the subtree used longest ago exactly when the order is the order of last use, or there is no bound, or the disk holds no more than the bound |
| Cache.RecentEvictionIff | internal/merkleservice/bump.go:44-68 | that is so from every moment of a run exactly when every hit of the run is on the subtree added last, or nothing can ever be evicted |
| Cache.NotLeastRecentlyUsed | internal/merkleservice/bump.go:21-68 | a run of lookups, reads and puts from the empty cache in which the subtree just looked up is the one evicted |
| Pipeline.PlanGenuine | internal/merkleservice/bump.go:657-662 | a coherent ledger's stored subtrees and recorded roots are what the assembly theorems ask for |
| Pipeline.StoredFragment | internal/merkleservice/bump.go:721-732 | a coherent ledger's stored fragment is an extraction for the token's positions in ascending order |
| Pipeline.FragmentsProve | internal/merkleservice/bump.go:737-741 | assembled from a coherent ledger's fragments, the bytes prove the token's txids in the loaded subtrees and flag no others |
| Pipeline.SubtreesProve | internal/merkleservice/bump.go:833-837 | the same for assembly from whole subtrees |
| Pipeline.ModesAgree | internal/merkleservice/bump.go:686-865 | from one ledger and the same loaded subtrees both modes give the same entries, and the same bytes when no pair is wholly owned |
| Process.TokenFromFragments | internal/merkleservice/bump.go:710-745 | a result exactly when some fragment loads, proving every loaded txid of the token; a lost fragment removes only its own |
| Pool.LoadStep | internal/merkleservice/bump.go:769-787 | one lookup, disk read or put of one worker, others free to act in between: a read that fails for this token skips the subtree, a hit does not depend on any read; its gathered positions stay those of the subtrees loaded, the cache holds only stored subtrees, and the work left shrinks |
| Pool.FinishToken | internal/merkleservice/bump.go:829-841 | a result exactly when some subtree of the token loaded, proving every loaded txid of the token; all were loaded but some of those whose read failed for it |
| Process.ResultsAgree | internal/merkleservice/bump.go:686-865 | the two modes' bytes for a token encode paths with the same entries, and are equal when it owns no whole pair |
| Pool.ProcessBumps | internal/merkleservice/bump.go:647-875 | for any number of workers, every schedule of their steps and any reads failing for any tokens, a BUMP for exactly the tokens with something loaded, each proving what was loaded: all whose read did not fail for the token, and of the rest only what the cache held; the ledger is only read |
| Harness.BlockConserved | cmd/harness/main.go:203-248 | a miner's subtrees end to end are the block's txids in some order when sealed, and in the end those with the coinbase in place of the first |
| Harness.CoinbaseLeaf | cmd/harness/main.go:203-204 | the remembered first txid is in subtree 0 of every miner, so finalizing changes exactly one leaf of the block |
| Harness.SealAndFinalize | cmd/harness/main.go:206-248 | sealing then finalizing leaves the winner's block ready and the other miners as sealed |
| Harness.TxidPlace | cmd/harness/main.go:203-248 | txid g sits at one leaf of subtree g / hps, and there in the end is it or, for the first, the coinbase |
| Harness.RunBlock | cmd/harness/main.go:206-302 | whichever reads fail for which tokens: each leaf of the winner's final block whose read did not fail for its token is proved by that token's BUMP to the root over the roots of the final leaves; so each txid g of the block, the coinbase in place of the first, is in the BUMP of the token its bytes derive, at a place in subtree g / hps |
| Db.LessIff | internal/diskstore/txid_list.go:258-279 | byte order is decided at the first place where the keys part: one ends there or has the lower byte |
| Db.BigEndianOrder | internal/diskstore/txid_list.go:49-55 | big-endian keys sort as their numbers do, and are equal only for equal numbers |
| Db.CompareKeys | internal/diskstore/txid_list.go:258-279 | the sign of the lexicographic comparison |
| Db.AscendingUnique | internal/diskstore/txid_list.go:235-247 | a set of keys has one order an iterator can visit it in |
| TxidList.KeyBytes | internal/diskstore/txid_list.go:49-55 | a key is the byte 'x' and eight bytes of index, the highest first |
| TxidList.BetweenIs | internal/diskstore/txid_list.go:211-223 | the range is half-open: the part from start up to end when both are in bounds; a negative start is 0, an end past the length is the length, and start >= end gives nothing |
| TxidList.ScanRange | internal/diskstore/txid_list.go:229-247 | an iterator from a start key visits the remaining indices in numeric order |
| TxidList.TxidList.constructor | internal/diskstore/txid_list.go:26-47 | counting the keys recovers the length, and the list is what the database holds |
| TxidList.TxidList.Append | internal/diskstore/txid_list.go:58-69 | one hash at the end; the keys stay exactly 0 to len-1 |
| TxidList.TxidList.Get | internal/diskstore/txid_list.go:178-198 | the hash at an index in range, nothing otherwise |
| TxidList.TxidList.Set | internal/diskstore/txid_list.go:201-209 | overwrites in range, refuses otherwise |
| TxidList.TxidList.Slice | internal/diskstore/txid_list.go:213-251 | the hashes at the indices from start up to, not including, end, however far outside they lie, read by a scan between two keys |
| TxidList.BufferedTxidList.constructor | internal/diskstore/txid_list.go:81-90 | a buffer size that is not positive becomes 1000, and the list is what the database holds |
| TxidList.BufferedTxidList.FlushLocked | internal/diskstore/txid_list.go:112-133 | the buffer moves to disk and the list it stands for is the same |
| TxidList.BufferedTxidList.Append | internal/diskstore/txid_list.go:93-103 | one hash at the end, and the buffer stays shorter than its size between calls |
| TxidList.BufferedTxidList.Get | internal/diskstore/txid_list.go:136-146 | disk and buffer answer as one sequence |
| TxidList.BufferedTxidList.Set | internal/diskstore/txid_list.go:149-159 | overwrites on disk or in the buffer, wherever the index lies |
| TxidList.BufferedTxidList.Slice | internal/diskstore/txid_list.go:163-168 | the same range of disk and buffer together |
| TxidList.BufferedTxidList.Len | internal/diskstore/txid_list.go:171-175 | the length of both together |
| TxidList.Reopen | internal/diskstore/txid_list.go:26-47 | a new list on the database after a flush is the old one |
| TxidList.PerformAll | internal/diskstore/txid_list.go:93-175 | over any run of calls every answer, and the final list, are those of a plain sequence |
| Encoding.MarshalEntry | internal/diskstore/encoding.go:16-38 | writes exactly the entry's bytes at a moving offset |
| Encoding.EntryLayout | internal/diskstore/encoding.go:14-38 | at which byte every part stands: txid, then subtree, local and global index and count of siblings in four bytes each, the lowest first, then the siblings from byte 48 |
| Encoding.UnmarshalEntry | internal/diskstore/encoding.go:41-76 | answers as the specified parser on any bytes, without reading out of bounds |
| Encoding.ParseEntryIff | internal/diskstore/encoding.go:41-76 | exactly which bytes parse and as what: the entry that stands at their front, whatever follows |
| Encoding.EntryReads | internal/diskstore/encoding.go:16-76 | a marshalled entry always reads back, with fields modulo 2^32 and that many siblings |
| Encoding.EntryRoundTrip | internal/diskstore/encoding.go:16-76 | ... and so as itself exactly when its fields fit four bytes |
| Encoding.EntryBytesRoundTrip | internal/diskstore/encoding.go:41-76 | accepted bytes are their entry's exactly when nothing follows the last sibling |
| Encoding.MarshalHashes | internal/diskstore/encoding.go:124-131 | writes the count and the hashes |
| Encoding.HashListLayout | internal/diskstore/encoding.go:122-131 | four bytes of count, then hash i at byte 4 + 32 * i |
| Encoding.UnmarshalHashes | internal/diskstore/encoding.go:134-148 | answers as the specified parser on any bytes |
| Encoding.ParseHashListIff | internal/diskstore/encoding.go:134-148 | exactly which bytes parse and as what |
| Encoding.HashListRoundTrip | internal/diskstore/encoding.go:122-148 | round trip exactly when the count fits four bytes |
| Encoding.HashListBytesRoundTrip | internal/diskstore/encoding.go:134-148 | accepted bytes are their list's exactly when nothing trails |
| EntryLists.MarshalEntries | internal/diskstore/encoding.go:80-92 | the count, then each entry behind its length |
| EntryLists.EntriesLayout | internal/diskstore/encoding.go:78-92 | four bytes of count, and at each entry's start the length of its bytes in four and the bytes |
| EntryLists.UnmarshalEntries | internal/diskstore/encoding.go:95-120 | the loop answers as the recursive parser on any bytes, errors included |
| EntryLists.ParseEntriesIff | internal/diskstore/encoding.go:95-120 | exactly which bytes parse and as what: each entry at the front of a window behind the window's length |
| EntryLists.EntriesRoundTrip | internal/diskstore/encoding.go:78-120 | round trip exactly when the count, every entry's length and every field fit four bytes |
| StumpStore.Store.Append | internal/stump/stump.go:136-140 | the log grows by one, and each key's list is its part of the log |
| StumpStore.Store.AppendBatch | internal/stump/stump.go:143-150 | the log grows by the batch; an empty one creates no key |
| StumpStore.Store.Get | internal/stump/stump.go:154-158 | a key's entries in append order |
| StumpStore.DBKeyBytes | internal/diskstore/stump_store.go:36-43 | a key is the byte 's', the XOR key and eight bytes of number, the highest first |
| StumpStore.DBKeyOrder | internal/diskstore/stump_store.go:36-43 | under one XOR key, database keys sort by sequence number |
| StumpStore.UnderPrefix | internal/diskstore/stump_store.go:45-51 | only a key's own entries lie under its prefix |
| StumpStore.ScanPlaces | internal/diskstore/stump_store.go:136-142 | a prefix scan visits a key's entries in the order of their numbers |
| StumpStore.TxidsUntouched | internal/diskstore/stump_store.go:13-15 | any run of stump writes leaves the txid list in the same database as it was |
| StumpStore.WriteAllHolds | internal/diskstore/stump_store.go:68-88 | after a run of writes from a counter, each entry is under its key and the number it was given, one past the last |
| StumpStore.WriteAllElsewhere | internal/diskstore/stump_store.go:68-88 | and no other key of the database is touched |
| StumpStore.HoldsWriteAll | internal/diskstore/stump_store.go:54-65 | a run of writes numbered on from the log's length extends the log in the database |
| StumpStore.DiskStumpStore.constructor | internal/diskstore/stump_store.go:31-34 | on any database the counter starts at zero; over one without stump keys the store stands for the empty log |
| StumpStore.DiskStumpStore.Append | internal/diskstore/stump_store.go:54-65 | on any database writes the entry under the key and the next sequence number; a store opened over no stumps stays in step with its log |
| StumpStore.DiskStumpStore.AppendBatch | internal/diskstore/stump_store.go:68-88 | writes the batch in order under the numbers that follow, on any database |
| StumpStore.DiskStumpStore.AppendMultiKeyBatch | internal/diskstore/stump_store.go:92-128 | each key of the batch gains its entries in order, whatever order the keys are visited in, and no other key changes |
| StumpStore.DiskStumpStore.Get | internal/diskstore/stump_store.go:132-164 | on any database what parses under the key's prefix, in byte order; opened over no stumps, exactly the key's appended entries in append order, each as it reads back |
| StumpStore.DiskAnswers | internal/diskstore/stump_store.go:132-164 | when the stump keys hold entries by number, however many times the store was reopened, a key's answer is its entries in the order of their numbers |
| StumpStore.PerformAll | internal/diskstore/stump_store.go:53-128 | any run of appends, batches and multi-key batches writes exactly their entries, numbered on from the counter |
| StumpStore.StoresAgree | internal/diskstore/stump_store.go:22-25 | reading back changes no key's list exactly when every appended entry fits |
| StumpStore.Reopen | internal/diskstore/stump_store.go:26-34 | a store opened over a log and a run of calls on it: what the database then holds under each number, whether that is the two logs end to end, what each key lost, and when its answer is old entries then new |
| StumpStore.ReopenExtends | internal/diskstore/stump_store.go:26-34 | after any run of writes from a counter at zero the database holds log and run end to end exactly when one of them is empty |
| StumpStore.ReopenLoses | internal/diskstore/stump_store.go:54-56 | a key's entries afterwards, and one for each number it was written under twice, are as many as its old and new ones |
| StumpStore.ReopenedSlot | internal/diskstore/stump_store.go:54-56 | what each number holds for each key afterwards: the new entry where one was written, the old one elsewhere |
| StumpStore.ReopenedAnswer | internal/diskstore/stump_store.go:132-164 | a key's answer afterwards is its old answer and then its new entries as they read back when every new number of the key is past every old one, and only then if no old entry reads back as a new one |
| Stump.XorBitwise | internal/stump/stump.go:66-81 | bit k of byte i of the key is set exactly when that bit of the two operands differs |
| Stump.XorSelf | internal/stump/stump.go:66-81 | the key is all zero exactly when the operands are equal |
| Stump.XORKey | internal/stump/stump.go:66-81 | the unrolled loop computes the bytewise exclusive or: each bit of the key is set exactly where the operands' bits differ |
| Stump.XorCommutes | internal/stump/stump.go:17-19 | the key does not depend on the order of its operands |
| Stump.XorRecovers | internal/stump/stump.go:23-24 | the key and either operand give the other |
| Stump.XorInjective | internal/stump/stump.go:20-26 | one token's keys differ between different roots |
| Stump.TokenRegistry.Register | internal/stump/stump.go:218-228 | the token's hash; a new token goes last, a known one changes nothing |
| Stump.Lookup | internal/stump/stump.go:91-97 | either store behind the interface answers: the one in memory from its log, the one on disk from whatever its database holds |
| Stump.FoundInOrder | internal/stump/stump.go:262-278 | what is found under a list of roots is in the order of the roots |
| Stump.FoundIff | internal/stump/stump.go:254-278 | discovery finds an entry for a token exactly when it was appended under the key of the token and some announced root |
| Stump.FoundOnDiskIff | internal/stump/stump.go:254-278 | on disk it finds exactly what such entries read back as |
| Stump.Discover | internal/stump/stump.go:262-278 | the map holds every token with something found, with its entries root by root, and no other token |
| Stump.DiscoverBoth | internal/stump/stump.go:262-278 | over two stores with the same entries under every key, disk and memory give one answer exactly when every entry found fits its fields |
| Stump.DiscoverAfter | internal/stump/stump.go:262-278 | ... as they have after any one run of calls on both |

## Left out

- BadgerDB, its transactions, write-batch size limits and write failures (internal/diskstore/db.go): storage is a map from keys to bytes with an ordered scan; the lifecycle's subtree and fragment stores are maps keyed by (miner, subtree) and (miner, token, subtree), so the 32-bit truncation of those key parts is not modelled.
- SHA-256, double hashing and token hashing: parameters.
- go-sdk's MerklePath, and `buildCompoundBUMP`/`accumulateProof`, which only benchmarks use: not part of this model; the BRC-74 reader and verifier here are written for it.
- Random generation: the winner, the coinbase and the swap positions are arbitrary values in range.
- Sharing of hash memory between entries, leaves and stores, and the returned view of the reusable output buffer: hashes are values and results are copies.
- Reordering of the caller's positions slice in place by the sort: the sorted order is a result instead.
- Metrics, logging, timing, the hex dump, the command line, configuration and memory budgeting.
- internal/diskstore/txid_index.go and the in-memory stores of the other interfaces: an easier repeat of the list.
- `Len` of the stump stores: a count of distinct keys, for diagnostics.
- Concurrent use of TxidList.Append and lock-level timing of the token index: concurrency is modelled for the parallel hashing, the subtree cache and the worker pool.
- Texts of error messages beyond one per failure.
- The uint64 and int32 widths inside the assembly: global indices and shifts are on naturals, and `Pipeline.Provable` bounds the block so that int, uint64 and int32 hold every value.
- Worker.BitsetCheck: the word index of a position is computed on naturals; the masks and words are 64-bit vectors as in the source.
- MerkleStore.GetProofFromStore: excludes index 0 of a single leaf, where the source writes past an empty path and panics.
- MerkleStore.GetAllProofs: excludes a single leaf for the same reason.
- Registry.Registry.SealSubtree: miners build their subtrees one after another; the source builds them in parallel on disjoint data.
- TxidList.TxidList.Append: asks for fewer than 2^63 - 1 entries, the range of the index type.
- StumpStore.DiskStumpStore.Append: asks for fewer than 2^64 appends; flushing every 50,000 entries makes no difference without write failures.
- Registry.Registry.FinalizeBlock: asks for at least one stored leaf, and with fragments on for a full subtree with positions filed in range under token names; on other leaves or positions the source panics.
- Pool.ProcessBumps: a token from fragments is one step, since it reads nothing that another worker writes.
- PowerOfTwo.ValidIffPowerOfTwo: speaks of sizes for which the global indices of two subtrees fit the source's int.
