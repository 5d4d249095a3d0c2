# Cloudstore: a verified model

Cloudstore is a self-hosted store for photos and other files. Media go into an erasure-coded object store over several
disks; other files are cut into content-defined chunks, deduplicated and batched; phones synchronise through a hash trie;
near-duplicate images and map clusters are found through in-memory indexes. This project models the algorithms and state
machines behind those parts in Dafny and proves what they are for.

## What is modelled

**Reed-Solomon codec.** `BinaryPolynomials`, `PolynomialProducts` and `ByteBits` give the arithmetic of polynomials over
GF(2); `GF256` the log and antilog tables, shown to be multiplication modulo 0x11D; `LinearAlgebra`, `GaussJordan` and
`Cauchy` the matrices. That any k rows of the encoding matrix are invertible is proved without determinants: a kernel
vector of a Cauchy system is eliminated one row and one column at a time. `RegionKernels` has the three backends,
including the blocked native kernel with its nibble tables (lanes are strided loops), and `Codec` the encoder and decoder.

**Object store.** The tables and the disks are the state (`StoreTypes`, `StoreState`); every transaction and every atomic
file replacement is one step (`StoreSteps`), and each step is shown to keep the index consistent and to change what
clients see only as intended. A crash is a return in the middle of an operation: every method may stop after any step,
and its contract says what holds then. `ObjectStore` has put, range reads, delete, restripe, repair and crash recovery,
`Rebuild` (with `Evacuation` and `RebuildRoom`), `Scrub` and `Recovery` the background work, `ShardFile` the shard
header. What clients see is the relation between keys and bytes; what the disks can still deliver is a second relation,
and operations are judged by both (`StoreViews`, `StoreDecoding`). `DiskErrors`, `RepairRoom` and `RebuildRoom` say when a
write, a repair or a rebuild has to succeed: a failure is tied to missing disks or to the error counters.

**Batch store.** `Rabin` shows that the table-driven rolling update is a polynomial remainder, `Chunker` that streaming
and whole-input chunking agree, `Bloom` that the filter has no false negatives. `BatchState`, `BatchSteps`, `Staging`,
`BatchFrames` and `BatchStore` follow chunks from the staging file to sealed frames and through compaction, with exact
reference counts and live totals, at every crash point.

**Synchronisation.** `HexDigits`, `MerkleTrie` and `Merkle` are the cached trie and the level-by-level difference,
`SyncManager` the manifest table with the tries kept in step, `SyncPlanner` the client's decision and what repeating it
leads to.

**Indexes.** `Hamming`, `Mih` and `BKTree` are the two Hamming indexes, both equal to a scan; `Grouping` and
`DuplicateIndex` the near-duplicate groups; `Points`, `Grid` and `QuadTree` the aggregate quadtree over real coordinates
and its clusters.

`Wrappers`, `Sequences`, `SortedSets` and `Extremes` hold small shared definitions.

## Assumptions

BLAKE2b, SHA-256 and CRC-32 are arbitrary functions. Where a property needs the absence of collisions, that is a
hypothesis of the lemma or method: of the object store's checksums (`Injective`), of the chunk digests
(`BatchState.NoCollisions`) and, for the trie, only of the strings hashed at the same place of the two tries compared
(`MerkleTrie.NoCollisions`). The compressor is any function with an inverse (`BatchState.Inverse`). Operations run one
at a time. A stripe id, which the code draws at random, is never drawn twice, also not after the index was rebuilt from
the disks.

## What the proofs turned up

- A saved Bloom filter is taken over when its count equals the number of indexed chunks. That does not mean it covers
  them: `Bloom.TakenOverIsNotEnough` saves a filter after one addition that is taken over and denies an indexed chunk.
  It covers them if and only if each of their probes was set by something added before (`Bloom.SavedCovers`), and then
  and only then is the store in order after a restart (`BatchStore.BatchStore.Restart`). That history is not kept; the
  half a caller can use is the second promise of `Bloom.SavedCovers`: it is enough that each indexed chunk was added.
- The planner's bulk path sends no removals. `SyncPlanner.RoundsConverge` gives the exact condition under which repeated
  synchronisation makes the server's manifest equal to the phone's library, and `SyncPlanner.DeletionsStay` the family
  that never gets there: more deletions than the threshold's share of the library.
- `link` counts only what the trie in memory did not have, so it reports zero when the trie is built by that very call.
- Membership in the trie does not lower the case of the name, while adding and removing do (`Merkle.MerkleTree.Contains`).
- The multi-index tables stay exact after an addition if and only if the id is new, and after a removal if and only if
  the id is not there or has the code given (`Mih.AddExact`, `Mih.RemoveExact`). Otherwise an id can be left behind
  without a code, and a search fails if and only if it meets such an id (`Mih.MultiIndexHash.Search`);
  `Mih.SearchAfterTwoAdds` and `Mih.SearchAfterOtherCode` are two searches that do.
- Removing an image does not regroup the others. `Grouping.RemovalGroups` gives the exact condition under which the labels
  are right without it, `Grouping.RemovalMaySplit` a case where they are not; near images do keep a common label.
- A restored image that has no near image any more keeps the label it had, although the answer is that it has no group.
  Labels that were the components stay so if and only if it has one near image or had no label
  (`DuplicateIndex.DuplicateIndex.Add`); `Grouping.RestoredKeepsLabel` is a case where they do not.
- The design says that the shards of a stripe are on distinct disks. After a repair without errors of other disks, of a
  stripe whose rows were apart, they are if and only if there was room for each shard that needed writing and whose row
  names a disk it could be written to: fewer shards in need before it than writable disks, not to be vacated and free of
  the shards that stay (`RepairRoom.RowsStayApart`, and `RepairRoom.RowsApartExactly` for any stripe). Exactly the shards
  with room are written (`RepairRoom.PlacedIfRoom`), all of them if there are as many such disks
  (`RepairRoom.RepairCompletes`). In the stripe of `RepairRoom.ExampleShares` there is room for one of two, so
  `RepairRoom.UnplacedSharesDisk` applies: two rows name one disk in the end (`RepairRoom.ExampleEndsShared`).
- A rebuild detaches shards that it cannot move. If no other disk reports an error, the shards given up by a run that was
  not stopped are exactly those that could not be moved when it started: their stripe is not committed, fewer than k of
  its shards verify, or there is no room (`RebuildRoom.Movable`). So the run is done if and only if every shard on the
  source could be moved, and every verifiable shard survives if and only if every verifiable one could
  (`Rebuild.RebuildManager.RunTask`). Where the other shards of a stripe verify elsewhere, a replacement disk that holds
  none of them is room enough (`RebuildRoom.SpareDiskSuffices`); without one, a readable copy of a pair on two writable
  disks is detached (`RebuildRoom.PairStranded`).
- Unpacking a shard header and packing it again gives the same bytes exactly for zero-padded headers
  (`ShardFile.PackUnpack`).

## Model

| member | source | states |
|---|---|---|
| GF256.MulIsPolynomialProduct | server/cloudstore/erasure/gf256.py:44-47 | the table product of two bytes is the product of their polynomials over GF(2), reduced modulo 0x11D |
| GF256.BuildTables | server/cloudstore/erasure/gf256.py:18-34 | the shift-and-xor loop fills exactly the tables of powers and logarithms of alpha, whose 255 powers are proved to be all the nonzero bytes |
| GF256.SomePower | server/cloudstore/erasure/gf256.py:22-27 | alpha generates: every nonzero byte is one of its first 255 powers |
| GF256.LogExp | server/cloudstore/erasure/gf256.py:23-24 | the logarithm table inverts the power table on every nonzero byte |
| GF256.MulAssoc | server/cloudstore/erasure/gf256.py:44-47 | the table product is associative |
| GF256.MulAdd | server/cloudstore/erasure/gf256.py:37-47 | the table product distributes over xor |
| GF256.MulInv | server/cloudstore/erasure/gf256.py:58-61 | every nonzero byte times its table inverse is 1, on either side |
| GF256.DivMul | server/cloudstore/erasure/gf256.py:50-55 | division by a nonzero byte and multiplication by it undo each other |
| RegionKernels.MulAddRegion | server/cloudstore/erasure/gf256.py:80-92 | in place, dst becomes dst + c * src; a length mismatch is refused and leaves dst alone |
| RegionKernels.SplitNibble | server/cloudstore/erasure/native/gf_simd.c:107-111 | a product is the sum of the products with the low and the high nibble, which is what the two 16-entry tables rely on |
| RegionKernels.BuildNibbleTables | server/cloudstore/erasure/native/gf_simd.c:107-111 | the two tables hold c times every low and every high nibble |
| RegionKernels.XorRegion | server/cloudstore/erasure/native/gf_simd.c:65-100 | word-wise xor with a byte-wise tail adds src to exactly the given stretch of dst |
| RegionKernels.NativeMulAdd | server/cloudstore/erasure/native/gf_simd.c:103-146 | lanes and scalar tail together add c * src to exactly the given stretch of dst and touch nothing else, for every length |
| RegionKernels.BlockRow | server/cloudstore/erasure/native/gf_simd.c:169-175 | one block of an output row is cleared and holds the row of the product up to the end of the block |
| RegionKernels.NativeMatMul | server/cloudstore/erasure/native/gf_simd.c:164-177 | the blocked kernel leaves the matrix product in the caller's distinct output buffers |
| RegionKernels.ReferenceMatMul | server/cloudstore/erasure/backends.py:40-49 | the byte-loop backend computes the matrix product |
| RegionKernels.TableMatMul | server/cloudstore/erasure/backends.py:60-72 | the whole-row backend, with coefficients 0 and 1 shortcut, computes the same product |
| RegionKernels.MatMul | server/cloudstore/erasure/backends.py:35-100 | all three backends compute one and the same product |
| GaussJordan.MatMul | server/cloudstore/erasure/matrix.py:38-51 | the scalar triple loop, skipping zero coefficients, computes the matrix product |
| GaussJordan.StuckMeansKernel | server/cloudstore/erasure/matrix.py:62-64 | where no pivot can be found, the original matrix has a nonzero kernel vector |
| GaussJordan.SameSpanInverts | server/cloudstore/erasure/matrix.py:60-80 | if the rows of [m beside I] and of [I beside r] span the same space, r inverts m on both sides |
| GaussJordan.InverseHasNoKernel | server/cloudstore/erasure/matrix.py:54-80 | a matrix with a left inverse has no kernel vector but zero |
| GaussJordan.Invert | server/cloudstore/erasure/matrix.py:54-80 | for every square matrix: either a two-sided inverse is returned, or the matrix is reported singular, and the latter exactly when it has a nonzero kernel vector |
| Cauchy.CauchyInjective | server/cloudstore/erasure/matrix.py:14-22 | a homogeneous Cauchy system with distinct nodes has only the zero solution |
| Cauchy.EncodingEntries | server/cloudstore/erasure/matrix.py:14-35 | the encoding matrix entry by entry: the identity on top; below it ones for k = 1, and otherwise the inverse of the sum of row number and column number |
| Cauchy.SurvivorsHaveNoKernel | server/cloudstore/erasure/matrix.py:14-35 | for every k and m and any k distinct rows of the encoding matrix, nothing but zero is mapped to zero |
| Cauchy.SurvivorsInvertible | server/cloudstore/erasure/codec.py:65-77 | the rows of any k survivors form an invertible matrix |
| Codec.ShardSizeFits | server/cloudstore/erasure/codec.py:35-40 | data that the cap admits fits k shards of the chosen size |
| Codec.ShardSizeLeast | server/cloudstore/erasure/codec.py:35-40 | the shard size is the least positive multiple of 64 for which k shards hold the data, or the cap if that is smaller |
| Codec.SplitRoundTrip | server/cloudstore/erasure/codec.py:42-47 | joining the k padded pieces and cutting at the data length gives the data back, whether or not the length is a multiple of the piece size |
| Codec.Systematic | server/cloudstore/erasure/codec.py:58-62 | the first k shards are the data pieces themselves |
| Codec.Replicas | server/cloudstore/erasure/matrix.py:31-35 | with k = 1 every shard is the padded data: the mirror profile is replication |
| Codec.ExplainsUnique | server/cloudstore/erasure/codec.py:88-98 | at most one data matrix encodes to a given set of k surviving shards |
| Codec.AnySurvivors | server/cloudstore/erasure/codec.py:58-119 | whichever k or more shards of an encoded stripe are kept, only the stripe's own data explains them, and joined and cut to length it is what was encoded |
| Codec.ChosenSurvivors | server/cloudstore/erasure/codec.py:79-86 | the choice fails exactly below k shards; otherwise it is k distinct available rows, with every available data row among them |
| Codec.ReedSolomon.Create | server/cloudstore/erasure/codec.py:22-32 | construction succeeds exactly for k at least 1 and k + m at most 256 |
| Codec.ReedSolomon.Split | server/cloudstore/erasure/codec.py:42-47 | the padded pieces, or a refusal exactly for data that does not fit |
| Codec.ReedSolomon.Encode | server/cloudstore/erasure/codec.py:50-56 | the m parity rows of the product with the encoding matrix, or a refusal exactly for the wrong number of shards |
| Codec.ReedSolomon.EncodeBytes | server/cloudstore/erasure/codec.py:58-62 | all k + m shards of the stripe that holds the data |
| Codec.ReedSolomon.DecodeMatrix | server/cloudstore/erasure/codec.py:65-77 | with or without a cache hit, a two-sided inverse of the survivor rows; the cache stays within its limit and holds inverses only |
| Codec.ReedSolomon.ReconstructData | server/cloudstore/erasure/codec.py:88-98 | fails exactly below k shards; otherwise the data matrix whose encoding agrees with the chosen survivors |
| Codec.ReedSolomon.Reconstruct | server/cloudstore/erasure/codec.py:100-115 | exactly the requested shards that are not in hand, each equal to the one that was encoded |
| Codec.ReedSolomon.DecodeBytes | server/cloudstore/erasure/codec.py:117-119 | with k or more shards of a stripe, the stripe's bytes, whatever they were; an error exactly below k |
| Placement.RotatedKeeps | server/cloudstore/storage/objectstore.py:167-169 | rotation is a bijection: each chosen disk gets one slot and none gets two |
| Placement.Place | server/cloudstore/storage/objectstore.py:161-169 | the placed disks are distinct, writable and not excluded, those with most free space, and a slot stays empty only when the candidates run out; slot i has the disk as many places further down the list by id as the first eight digits of the stripe id say, counting on from the start past the last slot |
| StoreTypes.VerifiedIsEncoded | server/cloudstore/storage/shardfile.py:130-149 | without checksum collisions a shard that verifies is the shard that was encoded |
| StoreTypes.SurvivesLosses | docs/TDD.md:56-57 | with the shards of a stripe on distinct disks, losing some disks costs at most as many verifiable shards |
| StoreState.OneValue | server/cloudstore/storage/objectstore.py:172-176 | a key has a value exactly if a committed object has it, and then only one |
| StoreSteps.CommitObjectStep | server/cloudstore/storage/objectstore.py:220-223 | the committing transaction makes exactly this object visible, with the bytes of its stripes |
| StoreSteps.DeleteObjectStep | server/cloudstore/storage/objectstore.py:387-388 | the deleting transaction hides exactly this object |
| StoreSteps.DeletePendingStep | server/cloudstore/storage/objectstore.py:541-542 | dropping pending stripes changes nothing visible |
| StoreSteps.SwapStripesStep | server/cloudstore/storage/objectstore.py:507-509 | the transaction that swaps stripes holding the same bytes is invisible |
| StoreSteps.SetRowStep | server/cloudstore/storage/objectstore.py:470-473 | a shard row may change its health, or its place to a copy of the encoded shard, invisibly |
| StoreReading.CollectedFromStripe | server/cloudstore/storage/objectstore.py:337-358 | what was collected of a consistent stripe are shards of that stripe |
| StoreReading.SliceAppend | server/cloudstore/storage/objectstore.py:299-304 | a range of a concatenation is the range of its front followed by the overlapping part of its last piece |
| ObjectStore.ObjectStore.WriteShard | server/cloudstore/storage/shardfile.py:107-127 | atomic replacement: the path holds the old file or the whole new one, on success the new one |
| ObjectStore.ObjectStore.TryReadShard | server/cloudstore/storage/objectstore.py:320-335 | what is returned is what verifies; otherwise only health marks and error counts change |
| ObjectStore.ObjectStore.Collect | server/cloudstore/storage/objectstore.py:340-353 | k shards are in hand exactly if k verify; no row of another stripe is touched, and none of a parity shard if the data shards verify |
| ObjectStore.ObjectStore.ReadStripe | server/cloudstore/storage/objectstore.py:337-358 | succeeds exactly if k shards verify, and then with the stripe's bytes; otherwise the stripe is marked unrecoverable and nothing else changes |
| ObjectStore.ObjectStore.StripeData | server/cloudstore/storage/objectstore.py:306-312 | from the cache or from the disks, the stripe's bytes |
| ObjectStore.ObjectStore.CachePut | server/cloudstore/storage/objectstore.py:97-108 | every cached entry stays the bytes of its stripe, only this stripe may be new, and data above the budget is not taken |
| ObjectStore.ObjectStore.ListStripes | server/cloudstore/storage/objectstore.py:273-278 | the visible stripes of an object in order |
| ObjectStore.ObjectStore.IterRange | server/cloudstore/storage/objectstore.py:293-304 | for every object and range: the object's slice [start, min(end, size)), without touching a row of any stripe that has no byte in the range; an absent key is an error, and the only other error is a stripe in the range with fewer than k verifiable shards |
| ObjectStore.ObjectStore.BeginStripe | server/cloudstore/storage/objectstore.py:236-241 | one transaction records a pending stripe under a fresh id, invisibly |
| ObjectStore.ObjectStore.FinishStripe | server/cloudstore/storage/objectstore.py:263-267 | one transaction records the shard rows and, unless the stripe is staged, commits it |
| ObjectStore.ObjectStore.LandShards | server/cloudstore/storage/objectstore.py:239-257 | every shard with a disk landed on it or made it report an error, and no other disk reports one |
| ObjectStore.ObjectStore.AbortStripe | server/cloudstore/storage/objectstore.py:257-262 | files, then the row, of a stripe that got too few shards; a crash leaves it pending; otherwise exactly the files that landed are gone, but for those that cannot be removed |
| ObjectStore.ObjectStore.WriteStripe | server/cloudstore/storage/objectstore.py:228-270 | on success the stripe is in its place, its shards have the least aligned size that holds the data or the cap, min(k + m, k + extra) of them verify, and its rows name distinct writable disks, those with most free space, turned by the stripe id; on failure no stripe is left, and after a crash at most a pending one; nothing visible changes in any case; a failed write means exactly that fewer shards than needed could land on the writable disks that reported no error |
| DiskErrors.PlacedSize | server/cloudstore/storage/objectstore.py:161-169 | as many slots get disks as there are writable disks, up to one for each shard |
| DiskErrors.ShortfallEarlier | server/cloudstore/storage/objectstore.py:258-262 | a stripe that got too few shards shows a shortage already at the start of the operation, since a disk stops being writable only by reporting errors |
| DiskErrors.DegradesAt | server/cloudstore/storage/disks.py:104-111 | after any number of errors: an online disk is degraded exactly from the first error on that brings its counter to the threshold or finds it there; no other status and no other disk changes |
| StorePutting.ProfileMeans | server/cloudstore/storage/objectstore.py:141-158 | never more shards than disks; below the configured number of shards, one copy on each of at most three disks; from that number on, the configured profile; none only without disks |
| StorePutting.ChosenMeans | server/cloudstore/storage/objectstore.py:141-158 | the same of the profile chosen for a write, counting exactly the disks that are not retired; a profile that is given is taken |
| ObjectStore.ObjectStore.RemoveObject | server/cloudstore/storage/objectstore.py:383-395 | rows go in one step before files: at a crash either nothing at all has happened, files included, or exactly this object is gone from the index; without one, exactly the files that its rows name on registered disks are gone, but for those the operating system refuses to remove; every other visible stripe can be decoded as before |
| ObjectStore.ObjectStore.Delete | server/cloudstore/storage/objectstore.py:361-367 | the key is gone and every other key unchanged, and of the files exactly those that its rows name on registered disks, but for those that cannot be removed; at a crash either the key is gone or nothing at all happened, to rows or files |
| ObjectStore.ObjectStore.WriteAll | server/cloudstore/storage/objectstore.py:209-219 | the stripes written tile [0, size) and join to the data, also for empty data and exact multiples of the stripe capacity; every stripe but the last is full, and the last is empty only for empty data |
| ObjectStore.ObjectStore.PutNew | server/cloudstore/storage/objectstore.py:200-226 | the key appears with exactly the data and all stripes well placed; on failure or crash nothing visible changed |
| ObjectStore.ObjectStore.Put | server/cloudstore/storage/objectstore.py:194-226 | idempotent on the key: an existing object is left alone, otherwise exactly this key appears with exactly the data, on well placed stripes of the chosen profile, full but for the last, with shards no larger than they need be; a failure leaves nothing behind, a crash nothing visible; each error has its cause: no disks, parameters that no codec has, or too few writable disks without errors; at every return each visible stripe that could be decoded still can, and so can the new ones |
| ObjectStore.ObjectStore.Unstage | server/cloudstore/storage/objectstore.py:500-504 | a restripe that failed halfway leaves the old stripes listed and no staged one, nor any file that its rows name on a registered disk, but for those that cannot be removed |
| ObjectStore.ObjectStore.SwapIn | server/cloudstore/storage/objectstore.py:505-509 | one transaction replaces an object's stripes by others with the same bytes, invisibly |
| ObjectStore.ObjectStore.Restripe | server/cloudstore/storage/objectstore.py:490-517 | what is visible never changes, at any crash; wherever it stops, either the old stripes are listed and none of their shards is lost, or all new ones are listed, of the same bytes one by one, well placed, of the new profile and with shards no larger than they need be; at the end the files of the old ones are gone but for those the operating system refuses to remove; each error has its cause: parameters, an oversized stripe, an undecodable one, or too few writable disks without errors |
| ObjectStore.ObjectStore.RecoverPending | server/cloudstore/storage/objectstore.py:531-549 | no pending stripe or object remains and everything visible is as before, also if interrupted and repeated; unless interrupted exactly the files left over are gone, but for those that cannot be removed; each visible stripe that could be decoded still can |
| StorePending.ClearedAre | server/cloudstore/storage/objectstore.py:531-545 | the files left over are those a pending stripe may have left on a readable disk, at any of its k + m positions, and those that rows of stripes of uncommitted objects name on a registered disk |
| StoreDecoding.StaysDecodableTrans | server/cloudstore/storage/objectstore.py:194-226 | over any row of puts, deletes, restripes, crashes and recoveries, every stripe visible at the end that had k verifiable shards at the start, or was not visible then, has k verifiable shards |
| StoreDecoding.PutDecodable | server/cloudstore/storage/objectstore.py:220-226 | a newly committed object can be decoded, and so can everything that could before |
| StoreDecoding.SwappedDecodable | server/cloudstore/storage/objectstore.py:505-517 | after the swap of a restripe, files of the old stripes gone or not, the same holds |
| ObjectStore.ObjectStore.Target | server/cloudstore/storage/objectstore.py:453-455 | the own disk if it can be written, is not to be vacated and holds no kept or rewritten shard of the stripe; otherwise the writable one of those with most free space; none only if there is none |
| ObjectStore.ObjectStore.RewriteOne | server/cloudstore/storage/objectstore.py:449-476 | after one step of the loop the shard is rewritten and verifies, or is as it was; every other shard is untouched; it is not rewritten only if no disk was left, or the disk it went to failed and reported an error |
| ObjectStore.ObjectStore.Survey | server/cloudstore/storage/objectstore.py:412-430 | exactly the shards that fail to verify or lie on a disk to be vacated are listed; corrupt and missing count those that do not verify by the health recorded of them, and every disk reports exactly its failed reads |
| ObjectStore.ObjectStore.RepairStripe | server/cloudstore/storage/objectstore.py:398-479 | every rewritten shard is the encoded one, on none of the vacated disks, and kept and rewritten shards are on distinct disks; no verifiable shard of any stripe is lost; unrecoverable exactly below k; every shard in need was rewritten, or found no disk, or was refused by one; verified, corrupt, missing and rewritten shards and all error counters are as counted |
| StoreRepairing.FullRepairSurvives | server/cloudstore/storage/objectstore.py:444-477 | a repair that left no shard unwritten lets the stripe survive the loss of any m disks |
| StoreRepairing.AccountedNext | server/cloudstore/storage/objectstore.py:449-476 | each step of the loop adds one fate; a shard is without a disk only while every writable disk is to be vacated or holds a shard kept or rewritten before it |
| RepairRoom.PlacedIfRoom | server/cloudstore/storage/objectstore.py:447-477 | a repair during which no disk but the vacated ones reports an error rewrites exactly those shards in need for which there is room: fewer shards in need before them than writable disks, not to be vacated and free of the shards that stay |
| RepairRoom.RepairCompletes | server/cloudstore/storage/objectstore.py:447-477 | such a repair rewrites every shard in need if and only if there are as many of these disks |
| RepairRoom.RowsApartExactly | server/cloudstore/storage/objectstore.py:447-477 | after such a repair the rows name distinct disks if and only if the rows it left alone did before, and none of the shards without room names a disk it could have been written to |
| RepairRoom.RowsStayApart | docs/TDD.md:56-57 | the rows of a stripe that were on distinct disks still are after such a repair if and only if there was room for every shard in need whose row names a writable disk that is not to be vacated |
| RepairRoom.UnplacedSharesDisk | server/cloudstore/storage/objectstore.py:453-458 | of two shards in need with one free disk, the first gets it, even if the row of the second goes on naming that disk |
| RepairRoom.ExampleShares | server/cloudstore/storage/objectstore.py:453-458 | a stripe of three copies on distinct disks, of which one is lost on a degraded disk and one on a writable disk, is such a case and has no room for the second |
| RepairRoom.ExampleEndsShared | docs/TDD.md:56-57 | after any repair of that stripe without disk errors two of its rows name one disk |
| StoreWriting.WellPlacedSurvives | server/cloudstore/storage/objectstore.py:257-269 | a stripe with n verifiable shards on distinct disks survives the loss of any n - k of them |
| ObjectStore.ObjectStore.Detach | server/cloudstore/storage/rebuild.py:78-79 | only the rows of this stripe on this disk lose their disk |
| Rebuild.RebuildManager.MoveStripe | server/cloudstore/storage/rebuild.py:68-81 | shards moved plus shards detached is what the source lost, and it lost some; shards are detached only if none could be moved, because the stripe is not committed, has too few verifiable shards, or every other writable disk holds one of its shards or one reported an error just then; without errors of other disks, exactly the movable shards are moved |
| Evacuation.LeftStuck | server/cloudstore/storage/rebuild.py:70-79 | a shard that a repair left on the source found no room, or the disk it went to reported an error |
| RebuildRoom.RepairSettles | server/cloudstore/storage/rebuild.py:68-73 | a repair away from the source, without errors of other disks, moves exactly the shards that could be moved, and leaves none that could be moved later |
| RebuildRoom.OnCourseNext | server/cloudstore/storage/rebuild.py:68-81 | moving one stripe after another keeps what can be moved as it was foreseen at the start |
| Rebuild.RebuildManager.RunTask | server/cloudstore/storage/rebuild.py:50-99 | it ends; unless stopped the source is empty and retired and the target online; moved plus failed plus what is left is what was there, failed counts exactly the shards given up, each for one of those reasons; without errors of other disks, a shard leaves the source for another disk if and only if it could be moved from the start, a run that was not stopped gives up exactly the others, is done if and only if there are none, and keeps every verifiable shard if and only if each verifiable one on the source could be moved |
| RebuildRoom.RunEnds | server/cloudstore/storage/rebuild.py:75-94 | at the end of a run all this follows from what became of each shard |
| RebuildRoom.SpareDiskSuffices | server/cloudstore/storage/rebuild.py:25-34 | a shard can be moved if the others of its committed stripe verify elsewhere and a writable disk holds none of them, given parity or that it verifies itself |
| RebuildRoom.PairStranded | server/cloudstore/storage/rebuild.py:75-79 | of two readable copies on two writable disks, the one on the source is detached by a run without target |
| Scrub.Scrubber.Process | server/cloudstore/storage/scrub.py:39-48 | a stripe is verified, repaired and stamped, and each statistic grows by what the stripe adds to it |
| Scrub.Scrubber.NextBatch | server/cloudstore/storage/scrub.py:57-61 | at most a batch of the stale stripes, those verified longest ago, in that order, and none only if there is none |
| Scrub.Scrubber.Run | server/cloudstore/storage/scrub.py:22-85 | with a clock that never goes back, a completed run leaves no visible stripe stamped before its cutoff, unless it reached its limit, and has checked every committed stripe with a shard row that was not healthy, if fewer than ten thousand stripes were checked; it checks no other stripe than these and the stale ones, and past its limit only these; checked stripes carry the right state, and nothing verifiable is lost; no stripe is checked twice, and the totals are the numbers of stripes checked, of their shards that verified, were corrupt and were missing when the run began, of stripes unrecoverable then, and of shards rewritten since, which did not verify then and do now |
| Scrub.TotalledNext | server/cloudstore/storage/scrub.py:39-48 | each stripe adds to the totals what it looked like when the run began, since repairs of other stripes do not touch it |
| ShardFile.UnpackPack | server/cloudstore/storage/shardfile.py:70-91 | unpacking a packed header, whatever follows it, gives the header back |
| ShardFile.PackedAt | server/cloudstore/storage/shardfile.py:6-14 | which bytes of a packed header hold the magic, the version and each field, the key, its padding and the checksum of all the bytes before it |
| ShardFile.LeDigit | server/cloudstore/storage/shardfile.py:27 | byte i of a field counts 256 to the power of i |
| ShardFile.BeDigit | server/cloudstore/storage/shardfile.py:74 | in the stripe id it is the i-th byte from the end |
| ShardFile.PackInjective | server/cloudstore/storage/shardfile.py:70-77 | different headers pack differently |
| ShardFile.PackUnpack | server/cloudstore/storage/shardfile.py:80-91 | packing what was unpacked gives the same bytes exactly for headers whose padding is zero and whose key fits |
| Recovery.Scan | server/cloudstore/storage/recovery.py:27-39 | every readable header is taken in, the first disk's copy of each shard wins, and nothing else is |
| Recovery.BuildIndex | server/cloudstore/storage/recovery.py:41-72 | one object per key found, with all its stripes and a row for every shard |
| Recovery.RecoveryRestores | server/cloudstore/storage/recovery.py:23-76 | from disks that hold only the files of a settled index, the rebuilt index is consistent and every key has the bytes it had |
| Recovery.AllReadsBack | server/cloudstore/storage/recovery.py:61-71 | with one copy of each shard, every shard that verified under the lost index verifies under the rebuilt one |
| Recovery.RecoverIndex | server/cloudstore/storage/recovery.py:23-76 | scan and build together restore every key's bytes |
| Recovery.WriteKeepsClean | server/cloudstore/storage/objectstore.py:247-252 | writing a shard of a stripe keeps the disks as recovery needs them: the header that it leaves tells the truth |
| Rabin.ModLoop | server/cloudstore/dedup/rabin.py:27-31 | the division loop computes the remainder of the polynomial |
| Rabin.BuildTables | server/cloudstore/dedup/rabin.py:38-51 | each entry of both tables is what its definition by repeated reduction says |
| Rabin.RollStep | server/cloudstore/dedup/rabin.py:77-85 | taking the oldest byte out and a new one in through the tables turns the remainder of one window into that of the next |
| Rabin.Step | server/cloudstore/dedup/rabin.py:83-85 | shift, 64-bit mask and table entry are one rolled step |
| Rabin.CutIsLocal | server/cloudstore/dedup/rabin.py:75-87 | with a minimum of at least 64 bytes, whether a cut may be made depends only on the 64 bytes before it |
| Rabin.FirstHitIsFirst | server/cloudstore/dedup/rabin.py:77-87 | the search stops at the first position past the minimum whose window hits |
| Rabin.NextBoundary | server/cloudstore/dedup/rabin.py:64-90 | the loop with its ring buffer and table updates finds the boundary that the remainders of the windows define |
| Chunker.CutIsFirst | server/cloudstore/dedup/rabin.py:64-90 | a cut lies within the limits, at a hit unless forced, and no earlier position hits |
| Chunker.ChunksJoin | server/cloudstore/dedup/rabin.py:120-140 | the chunks of any input join to the input |
| Chunker.ChunkSizes | server/cloudstore/dedup/rabin.py:120-140 | every chunk but the last has between the minimum and the maximum size, the last between one byte and the maximum |
| Chunker.ChunksFromCut | server/cloudstore/dedup/rabin.py:120-140 | from any cut on, the chunks are those of the rest alone |
| Chunker.SharedSuffix | server/cloudstore/dedup/rabin.py:3-6 | two inputs with a common suffix that starts at a cut of both have the same chunks from there on |
| Chunker.StreamChunker.Fill | server/cloudstore/dedup/rabin.py:127-135 | the buffer holds the unread rest up to the read size, or all of it at the end |
| Chunker.StreamChunker.Split | server/cloudstore/dedup/rabin.py:120-140 | however the stream is fragmented and whatever the read size, it ends with exactly the chunks of the whole input |
| Bloom.BloomFilter.Add | server/cloudstore/dedup/bloom.py:40-44 | everything added before stays reported, and the new digest is |
| Bloom.BloomFilter.MightContain | server/cloudstore/dedup/bloom.py:46-56 | never a false negative; positive exactly if all probes were set by something added |
| Bloom.ProbeOf | server/cloudstore/dedup/bloom.py:35-38 | probes start at the first of the two little-endian numbers that a digest begins with, and advance by the second, made odd, modulo the number of bits |
| Bloom.SavedCovers | server/cloudstore/dedup/batchstore.py:69-73 | a saved filter reports every chunk of an index if and only if each of their probes was set by something added before; having added them all is enough |
| Bloom.TakenOverIsNotEnough | server/cloudstore/dedup/batchstore.py:72-73 | comparing counts alone is not enough: for any number of probes, a filter to which one digest was added is taken over and denies an indexed chunk |
| BatchState.LiveAtMostRaw | server/cloudstore/dedup/batchstore.py:142-146 | a batch's live bytes are never negative and never above its raw bytes |
| BatchState.ListedHeld | server/cloudstore/dedup/batchstore.py:153-155 | every chunk of a recorded file exists, is referenced, and the file is held |
| BatchSteps.AddRefStep | server/cloudstore/dedup/batchstore.py:136-141 | one reference more keeps every count and live total exact |
| BatchSteps.DropRefStep | server/cloudstore/dedup/batchstore.py:317-322 | one reference less keeps every count and live total exact |
| BatchSteps.SealStep | server/cloudstore/dedup/batchstore.py:284-297 | the transaction that switches a batch to its sealed object changes no file, and the dead chunks go |
| BatchSteps.CompactStep | server/cloudstore/dedup/batchstore.py:349-356 | the transaction that moves the live chunks of a batch changes no file |
| BatchFrames.Layout | server/cloudstore/dedup/batchstore.py:252-280 | the frames are the laid-out bytes compressed one by one, and every piece lies in one frame at its recorded offset, the total length of those before it; a frame is closed as soon as its pieces have the frame size, and not before |
| BatchFrames.CoveredInFrame | server/cloudstore/dedup/batchstore.py:271-280 | what the layout put into a frame is what decompressing that frame gives back at that place |
| BatchFrames.FindFrame | server/cloudstore/dedup/batchstore.py:190-192 | the frame with the greatest start not after the offset, if any |
| BatchFrames.FoundFrame | server/cloudstore/dedup/batchstore.py:189-206 | that frame holds the whole chunk |
| BatchStore.BatchStore.Dictionary | server/cloudstore/dedup/batchstore.py:179-187 | cached or read, the batch's own dictionary |
| BatchStore.BatchStore.ReadSealed | server/cloudstore/dedup/batchstore.py:189-206 | the bytes that the sealed object holds at this offset, with or without a cached frame |
| BatchStore.BatchStore.ReadChunk | server/cloudstore/dedup/batchstore.py:157-177 | a known chunk reads back exactly its bytes, wherever it is; an unknown one is an error |
| BatchStore.BatchStore.ReadFile | server/cloudstore/dedup/batchstore.py:153-155 | every recorded file reads back exactly the bytes it was recorded with |
| BatchStore.BatchStore.Lookup | server/cloudstore/dedup/batchstore.py:94-100 | the answer through the filter is the answer of the index |
| BatchStore.BatchStore.StagePieces | server/cloudstore/dedup/batchstore.py:111-125 | exactly the pieces not known and not just appended are appended, each once, at the recorded offset |
| BatchStore.BatchStore.CommitFile | server/cloudstore/dedup/batchstore.py:130-146 | one transaction records the new chunks, the references and the totals |
| BatchStore.BatchStore.Ingest | server/cloudstore/dedup/batchstore.py:102-150 | the file is recorded as the digests of the content-defined chunks of its bytes, in order, and reads back its bytes; the staging file of the open batch grew by exactly the chunks that the index did not have, each once, recorded where they lie; no other file changes, and of the other rows at most the counts; a crash leaves either all this or no new row at all and at most a first part of those bytes |
| Staging.NewPiecesAre | server/cloudstore/dedup/batchstore.py:113-125 | what is appended are the chunks with unknown digests in the order in which they first occur, one for each such digest |
| BatchStore.BatchStore.Release | server/cloudstore/dedup/batchstore.py:314-323 | the file is gone, no chunk or batch row goes or changes but for its counts, and no other file changes |
| BatchStore.BatchStore.Seal | server/cloudstore/dedup/batchstore.py:215-305 | invisible to every file at every crash point; a sealed batch has no staging file left, and its object holds exactly its live chunks in frames as laid out; no other batch changes, nor does anything if there was nothing to seal |
| BatchStore.BatchStore.CompactOne | server/cloudstore/dedup/batchstore.py:332-360 | invisible to every file at every crash point; the rows of the live chunks name the open batch, whose staging file grew by as many bytes, the batch is deleted and its object gone, and no other batch or chunk changes |
| BatchStore.BatchStore.Compact | server/cloudstore/dedup/batchstore.py:325-362 | invisible to every file; exactly the sealed batches below the ratio are deleted, and at a crash no other one is touched either; afterwards no sealed batch is below the ratio |
| BatchStore.WastefulMeans | server/cloudstore/dedup/batchstore.py:328-330 | a batch is below the ratio exactly if its live chunks have less than that share of the bytes of all its chunks, and it has some |
| BatchStore.BatchStore.Restart | server/cloudstore/dedup/batchstore.py:69-78 | a saved filter with the right count is taken over, otherwise one is built from the index; the store is in order again if and only if a filter taken over reports every chunk |
| BatchStore.BatchStore.Recover | server/cloudstore/dedup/batchstore.py:307-311 | invisible to every file; afterwards no batch with a staging file is left in the middle of sealing, and a batch that was not keeps its row, its chunks, its object and its staging file |
| HexDigits.ParsedHex | server/cloudstore/sync/merkle.py:44-47 | parsing succeeds alike in either case and gives the bytes whose lower-case digits were written |
| HexDigits.HexAt | server/cloudstore/sync/merkle.py:45-56 | the high half of each byte is written first |
| MerkleTrie.NodeOfUnder | server/cloudstore/sync/merkle.py:70-82 | a node's value is a function of the digests below it |
| MerkleTrie.InnerHashed | server/cloudstore/sync/merkle.py:79-80 | above a leaf the sixteen child values are hashed in the order of their digits, 32 bytes each, unless all are the empty value |
| MerkleTrie.LeafHashed | server/cloudstore/sync/merkle.py:76-77 | at a leaf its digests are hashed, each once and in ascending order, unless there is none |
| MerkleTrie.NodeTells | server/cloudstore/sync/merkle.py:70-82 | without collisions among the strings hashed at the same places, equal values mean equal sets below |
| MerkleTrie.FewDifferences | server/cloudstore/sync/merkle.py:110-120 | collisions or not, no more nodes of one level differ than digests do |
| MerkleTrie.FoundAll | server/cloudstore/sync/merkle.py:108-128 | without collisions the walk reaches the leaf of every differing digest |
| Merkle.MerkleTree.Made | server/cloudstore/sync/merkle.py:26-31 | the tree over exactly the digests named, or an error exactly if one of the names is malformed |
| Merkle.MerkleTree.Invalidate | server/cloudstore/sync/merkle.py:40-42 | exactly the values on the way to the leaf are forgotten |
| Merkle.MerkleTree.Add | server/cloudstore/sync/merkle.py:44-55 | the digest is a member, nothing else changes, the answer says whether it was new, and every cached value stays right; a malformed name is refused and changes nothing |
| Merkle.MerkleTree.Remove | server/cloudstore/sync/merkle.py:57-68 | the digest is no member, nothing else changes, the answer says whether it was, and every cached value stays right |
| Merkle.MerkleTree.Contains | server/cloudstore/sync/merkle.py:36-38 | membership, but only of names whose first three digits are in lower case, since this method does not lower them; an error exactly for a malformed name that shares a bucket's prefix |
| Merkle.MerkleTree.Count | server/cloudstore/sync/merkle.py:33-34 | the bucket sizes add up to the number of members |
| Merkle.MerkleTree.NodeAt | server/cloudstore/sync/merkle.py:70-82 | cached or computed, the value of the trie over the current members |
| Merkle.MerkleTree.ChildrenOf | server/cloudstore/sync/merkle.py:87-90 | the sixteen child values of each path asked for |
| Merkle.MerkleTree.BucketsOf | server/cloudstore/sync/merkle.py:92-96 | the members of each leaf asked for |
| Merkle.FrontierSize | server/cloudstore/sync/merkle.py:110-120 | a frontier is never larger than the symmetric difference |
| Merkle.Descend | server/cloudstore/sync/merkle.py:112-118 | the next frontier is exactly the reached paths of the next level, each once, at most sixteen per parent |
| Merkle.DifferingLeaves | server/cloudstore/sync/merkle.py:110-120 | the leaves reached are exactly those all of whose ancestors differ; no request exceeds the server's limit of 4096 paths; at most 48 child hashes per differing digest are received |
| Merkle.DifferingMembers | server/cloudstore/sync/merkle.py:121-127 | the differing members of those leaves |
| Merkle.Diff | server/cloudstore/sync/merkle.py:99-128 | exactly the differing digests below reached leaves, and without collisions exactly (local - remote, remote - local), within 48 child hashes per differing digest |
| SyncManager.SyncManager.Tree | server/cloudstore/sync/manager.py:44-50 | the trie in memory, or one built from the rows, in step with them |
| SyncManager.SyncManager.Link | server/cloudstore/sync/manager.py:52-60 | the rows gain exactly these, trie and table stay in step, other devices are untouched; the count is that of the new ones if the trie was in memory and zero if it was built only now |
| SyncManager.SyncManager.Unlink | server/cloudstore/sync/manager.py:62-69 | the rows lose exactly these, trie and table stay in step, other devices are untouched |
| SyncManager.SyncManager.Known | server/cloudstore/sync/manager.py:77-81 | the batched queries find exactly the names whose content is known |
| SyncManager.SyncManager.Reconcile | server/cloudstore/sync/manager.py:71-92 | the manifest gains the known part of add and loses remove; every other name of add comes back exactly once, as to be uploaded or as being processed |
| SyncPlanner.Ask | ios/CloudSyncKit/Sources/CloudSyncKit/SyncPlanner.swift:39-43 | equal sets give equal roots, and without collisions equal roots mean equal sets |
| SyncPlanner.ModeMeans | ios/CloudSyncKit/Sources/CloudSyncKit/SyncPlanner.swift:44-46 | the whole list is sent exactly if the server has nothing, or the phone or the server, whichever has more, exceeds the other by more than the threshold times the size of the library |
| SyncPlanner.PlanBulk | ios/CloudSyncKit/Sources/CloudSyncKit/SyncPlanner.swift:46-51 | the whole list is sent: what is known is linked and nothing is unlinked |
| SyncPlanner.PlanWalk | ios/CloudSyncKit/Sources/CloudSyncKit/SyncPlanner.swift:52-81 | the difference found by the walk is applied |
| SyncPlanner.Plan | ios/CloudSyncKit/Sources/CloudSyncKit/SyncPlanner.swift:38-82 | with any hash, nothing both sides have is lost and only what the client has and the archive knows is gained; without collisions mode, new manifest, counts and leftovers are exactly those of the specification |
| SyncPlanner.Settles | ios/CloudSyncKit/Sources/CloudSyncKit/SyncPlanner.swift:38-82 | once the leftovers are uploaded and linked, the manifest no longer depends on what the archive knew before |
| SyncPlanner.RoundsConverge | ios/CloudSyncKit/Sources/CloudSyncKit/SyncPlanner.swift:44-51 | after two or more rounds the manifest is the client's library if and only if no name dropped by the client is kept alive by the bulk path, which is decided by two counts |
| SyncPlanner.DeletionsStay | ios/CloudSyncKit/Sources/CloudSyncKit/SyncPlanner.swift:46-51 | a client that dropped more than the threshold's share is never rid of it at the server, in any number of rounds |
| Hamming.Triangle | server/cloudstore/phash/bktree.py:3-6 | Hamming distance satisfies the triangle inequality |
| Mih.SubsDistance | server/cloudstore/phash/mih.py:19-20 | the distance of two 64-bit codes is the sum of the distances of their four substrings |
| Mih.Pigeonhole | server/cloudstore/phash/mih.py:3-7 | codes within r agree up to r / 4 in one substring |
| Mih.CombinationsAre | server/cloudstore/phash/mih.py:26 | every ascending choice of bit positions is enumerated, and nothing else |
| Mih.Neighbours | server/cloudstore/phash/mih.py:23-31 | exactly the 16-bit words within the radius |
| Mih.MultiIndexHash.Add | server/cloudstore/phash/mih.py:40-43 | the item is indexed under its code; exact tables stay exact if and only if the id is new |
| Mih.MultiIndexHash.Remove | server/cloudstore/phash/mih.py:45-50 | the item is forgotten; exact tables stay exact if and only if it was not there or is removed under its own code |
| Mih.MultiIndexHash.Search | server/cloudstore/phash/mih.py:52-66 | exactly the items that a scan over all codes finds within the radius, each once with its distance; it fails if and only if a bucket it looks at holds an item without a code |
| Mih.AddExact | server/cloudstore/phash/mih.py:40-43 | tables that were exact are exact after an addition if and only if the id was not in them |
| Mih.RemoveExact | server/cloudstore/phash/mih.py:45-50 | tables that were exact are exact after a removal if and only if the id was not in them or has the substrings of the code given |
| Mih.TwiceAddedLingers | server/cloudstore/phash/mih.py:40-50 | an item added twice and removed once is left behind where every search for its code looks, from any state |
| Mih.OtherCodeLingers | server/cloudstore/phash/mih.py:45-50 | so is an item removed under another code than its own |
| Mih.SearchAfterTwoAdds | server/cloudstore/phash/mih.py:52-66 | the first of these ends in a search that fails |
| Mih.SearchAfterOtherCode | server/cloudstore/phash/mih.py:52-66 | and so does the second |
| BKTree.Hung | server/cloudstore/phash/bktree.py:35-44 | hanging a new node where the walk ends keeps every node on the path that its distances name |
| BKTree.StillPending | server/cloudstore/phash/bktree.py:70-76 | below a visited node, every code within the radius is below an edge in the searched range |
| BKTree.BKTree.Add | server/cloudstore/phash/bktree.py:29-44 | exactly one more entry, and the tree stays well formed |
| BKTree.BKTree.Remove | server/cloudstore/phash/bktree.py:46-58 | exactly one occurrence of the entry goes, if there is one, and the answer says so |
| BKTree.BKTree.Search | server/cloudstore/phash/bktree.py:60-78 | each entry within the radius as often as it was added and not removed, with its true distance, and nothing else |
| DuplicateIndex.TreeScans | server/cloudstore/phash/duplicates.py:25-27 | over the same images either index gives what a scan gives |
| Grouping.GroupsAreComponents | server/cloudstore/phash/duplicates.py:1-13 | two images share a label if and only if they are connected by near pairs, the label is the smallest id of the component, and exactly isolated images have none |
| Grouping.MergedConnected | server/cloudstore/phash/duplicates.py:52-55 | everything merged is connected to the new image |
| Grouping.RelabelGroups | server/cloudstore/phash/duplicates.py:56-61 | relabelling the rows of all merged labels and of the neighbours with the smallest id makes the labels right for the larger graph |
| Grouping.RestoredKeepsLabel | server/cloudstore/phash/duplicates.py:45-62 | two near images are removed and one is restored alone: it has no near image, and keeps its label |
| Grouping.RemovalGroups | server/cloudstore/phash/duplicates.py:64-68 | labels that were the components are the components without the image if and only if it had no neighbour, or is not the label and all others of its component are still connected to the label and have neighbours |
| Grouping.RemovalMaySplit | server/cloudstore/phash/duplicates.py:64-68 | removal does not regroup: a concrete row of three images keeps one label after the middle one goes |
| DuplicateIndex.DuplicateIndex.Load | server/cloudstore/phash/duplicates.py:37-43 | exactly the untrashed images with a code are indexed |
| DuplicateIndex.DuplicateIndex.Add | server/cloudstore/phash/duplicates.py:45-62 | for a new or restored image: near images share a label in any case; labels that were the connected components stay so, except exactly for an image without a near one that still has a label; only rows of the new image, its neighbours and the merged labels change, to the least id among them, which is the answer |
| DuplicateIndex.DuplicateIndex.Remove | server/cloudstore/phash/duplicates.py:64-68 | the image leaves the index and near images still share a label; labels that were the components stay so exactly under the condition of Grouping.RemovalGroups |
| Points.AggregatesPlus | server/cloudstore/spatial/quadtree.py:67-71 | count, sums and representative of one more point |
| QuadTree.QNode.Split | server/cloudstore/spatial/quadtree.py:79-90 | the children hold exactly the points of their quarters, with right aggregates, and no node is deeper than 24 |
| QuadTree.QNode.Insert | server/cloudstore/spatial/quadtree.py:65-77 | all nodes on the way stay exact and the tree has exactly one point more |
| QuadTree.QNode.Remove | server/cloudstore/spatial/quadtree.py:92-112 | all nodes on the way stay exact and the tree has exactly the other points; the answer says whether the point was there |
| QuadTree.QNode.FindRep | server/cloudstore/spatial/quadtree.py:114-121 | a point beneath with the greatest key, or none if there is no point |
| Grid.GridCompact | server/cloudstore/spatial/quadtree.py:143-148 | points in one grid cell are less than a cell's side apart |
| Grid.FewParts | server/cloudstore/spatial/quadtree.py:143-148 | parts that are whole cells of a grid of n by n are at most n times n |
| QuadTree.CellPixels | server/cloudstore/spatial/quadtree.py:3-8 | a target cell is 64 of the 256 pixels of a map tile wide at every zoom from 0 to 22; below, it is as at 0, and above, as at 22 |
| QuadTree.QuadTree.Insert | server/cloudstore/spatial/quadtree.py:59-63 | one point more, and size is the number of points |
| QuadTree.QuadTree.Remove | server/cloudstore/spatial/quadtree.py:92-112 | the point with this id is gone if it was there, and size is the number of points |
| QuadTree.QuadTree.Clusters | server/cloudstore/spatial/quadtree.py:123-156 | the clusters aggregate disjoint parts of the points; two points are in one part if and only if they are in one cell of the target grid, so there are at most as many clusters as cells; no point of the viewport is left out, and every point counted is in a cell that meets the viewport; over the whole world the counts add up to the size of the tree |
| QuadTree.QuadTree.Viewport | server/cloudstore/spatial/quadtree.py:123-126 | for a viewport across the antimeridian too, every point in view is in a cluster of one of its two sides, and each side has its clusters cell by cell |

## Left out

- Codec.ReedSolomon.Create: a backend is given; choosing one by environment variable or by what is built, and the XOR parity baseline, are not modelled.
- RegionKernels.NativeMulAdd: vector instructions are loops over lanes of 32 bytes with a scalar tail; the 16-byte variant, alignment and the C integer widths are not modelled.
- ObjectStore.ObjectStore.Put: the data is given whole, as from readers that return what is asked for until the end (put_bytes, put_file); a stream with short reads is not modelled.
- ObjectStore.ObjectStore.WriteShard: temporary files and directory syncs are one atomic replacement that may fail before or after it took place; a key too long for the header, which pack_header refuses with a ValueError (server/cloudstore/storage/shardfile.py:72-74), is not modelled: keys fit.
- ObjectStore.ObjectStore.CachePut: which entries are evicted is left open, and codecs are created per call instead of kept.
- ObjectStore.ObjectStore.RepairStripe: a crash between deleting the old copy and updating the row is not covered.
- Rebuild.RebuildManager.RunTask: errors raised in the middle, rates, throttling and the stored progress rows are not modelled.
- Scrub.Scrubber.Run: errors raised in the middle, throttling and the table of runs are not modelled.
- ShardFile.UnpackPack: the key is its encoded bytes; decoding UTF-8 is not modelled.
- Recovery.RecoverIndex: the index is empty at the start, so skipping known stripes and extending an existing object are not modelled; the disks hold no orphan files.
- Chunker.StreamChunker.Split: the Python and the C loop are one model, since they are the same step by step.
- BatchStore.BatchStore.Seal: the order of chunks by file extension and the trained dictionary are left open, so nothing is said about compression; the JSON index and the footer are opaque trailing bytes; a batch that is sealing without a staging file stays so.
- BatchStore.BatchStore.ReadChunk: the second attempt after a concurrent move is not modelled, as operations run one at a time.
- BatchStore.BatchStore.Restart: a filter file that is malformed is one that is not there; reading and writing the file are not modelled.
- Merkle.MerkleTree.Add: white space, which the parser of hexadecimal digits would skip, makes a name malformed here.
- Merkle.MerkleTree.BucketsOf: members are sets, not sorted lists.
- SyncManager.SyncManager.Reconcile: time stamps and the list of devices are not modelled; names are valid digests, as the API checks.
- SyncPlanner.Plan: the estimate of bytes, network errors and incomplete answers are not modelled.
- Mih.MultiIndexHash.Search: the counter of candidates is kept but nothing is said about it.
- BKTree.BKTree.Search: the order of the hits and the iterator over all entries are not modelled.
- DuplicateIndex.DuplicateIndex.Add: the image is not in the index yet; the report of groups with the suggested keeper is not modelled.
- QuadTree.QNode.Insert: the walk down the tree is a recursion instead of a loop, and so is that of removal; coordinates are exact reals given in the unit square, without the Mercator projection.
- QuadTree.QNode.Remove: the point is looked for where it was inserted, as its caller does (server/cloudstore/services.py:117).
- QuadTree.QuadTree.Remove: so is the point here; with other coordinates the code would take the wrong ones off the sums of a leaf that holds the id.
- QuadTree.QuadTree.Clusters: the conversion of means back to degrees is not modelled.
- HTTP routes, authentication, resumable uploads, the web and iOS interfaces, image and video decoding, thumbnails, albums, search and statistics are not part of this model.
- SQL text, write-ahead logging, locks and threads are not part of this model: tables are maps and a transaction is one step.
