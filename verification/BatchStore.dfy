/** The dedup tier: ingest, read, release, seal, compact and crash recovery. */
module BatchStore {
  import opened Wrappers
  import opened LinearAlgebra
  import opened Bloom
  import opened Chunker
  import opened BatchState
  import opened BatchSteps
  import opened Staging
  import BatchFrames

  datatype BatchError = UnknownChunk | NoStagingFile | Corrupt | Skipped(stage: Stage) | Crashed

  const HASH_SIZE := 32

  /** The digest has 32 bytes and, by assumption, no collisions; decompression undoes compression. */
  ghost predicate Assumptions(hash: Vec -> Hash, z: Zip) {
    (forall x :: |hash(x)| == HASH_SIZE) && NoCollisions(hash) && Inverse(z)
  }

  // ---------------------------------------------------------------- caches

  ghost predicate FrameCached(st: State, z: Zip, b: BatchId, i: nat, data: Vec) {
    b in st.batches && st.batches[b].stage.Sealed? && b in st.objects && i < |st.batches[b].frames|
    && data == Plain(z, st.batches[b], st.objects[b], i)
  }

  ghost predicate DictCached(st: State, b: BatchId, dict: Vec) {
    b in st.batches && st.batches[b].stage.Sealed? && b in st.objects && dict == DictOf(st.batches[b], st.objects[b])
  }

  ghost predicate CachesOk(st: State, z: Zip, frames: map<(BatchId, nat), Vec>, dicts: map<BatchId, Vec>) {
    (forall key :: key in frames ==> FrameCached(st, z, key.0, key.1, frames[key]))
    && forall b :: b in dicts ==> DictCached(st, b, dicts[b])
  }

  /** The caches hold for any state in which the sealed batches are the same. */
  lemma CachesKept(a: State, b: State, z: Zip, frames: map<(BatchId, nat), Vec>, dicts: map<BatchId, Vec>)
    requires CachesOk(a, z, frames, dicts)
    requires forall id :: id in a.batches && a.batches[id].stage.Sealed? && id in a.objects ==>
               SealedSame(a, b, id)
    ensures CachesOk(b, z, frames, dicts)
  {
    hide Plain, DictOf;
    forall key | key in frames
      ensures FrameCached(b, z, key.0, key.1, frames[key])
    {
      PlainSame(z, a.batches[key.0], b.batches[key.0], a.objects[key.0], key.1);
    }
    forall id | id in dicts
      ensures DictCached(b, id, dicts[id])
    {
      DictSame(a.batches[id], b.batches[id], a.objects[id]);
    }
  }

  ghost predicate SealedSame(a: State, b: State, id: BatchId)
    requires id in a.batches && id in a.objects
  {
    id in b.batches && b.batches[id].stage.Sealed? && id in b.objects && b.objects[id] == a.objects[id]
    && b.batches[id].frames == a.batches[id].frames && b.batches[id].dictLen == a.batches[id].dictLen
  }

  lemma PlainSame(z: Zip, a: BatchRow, b: BatchRow, blob: Vec, i: nat)
    requires i < |a.frames| && b.frames == a.frames && b.dictLen == a.dictLen
    ensures Plain(z, b, blob, i) == Plain(z, a, blob, i)
  {}

  lemma DictSame(a: BatchRow, b: BatchRow, blob: Vec)
    requires b.dictLen == a.dictLen
    ensures DictOf(b, blob) == DictOf(a, blob)
  {}

  class BatchStore {
    const hash: Vec -> Hash
    const z: Zip
    /** Dictionary training: any function of the samples. */
    const train: seq<Vec> -> Vec
    /** The index that closes a sealed object. */
    const footer: (seq<Frame>, nat) -> Vec
    const frameSize: nat
    const bloomBits: nat
    const bloomProbes: nat
    const chunker: StreamChunker

    var chunks: map<Hash, ChunkRow>
    var refs: map<Ref, Hash>
    var batches: map<BatchId, BatchRow>
    var raw: map<BatchId, Vec>
    var objects: map<BatchId, Vec>
    var frameCache: map<(BatchId, nat), Vec>
    var dictCache: map<BatchId, Vec>
    var bloom: BloomFilter
    ghost var bytes: map<Hash, Vec>
    ghost var lists: map<FileId, seq<Hash>>

    ghost function Now(): State
      reads this`chunks, this`refs, this`batches, this`raw, this`objects, this`bytes, this`lists
    {
      State(chunks, refs, batches, raw, objects, bytes, lists)
    }

    /** What survives a crash. */
    ghost predicate Durable()
      reads this`chunks, this`refs, this`batches, this`raw, this`objects, this`bytes, this`lists
    {
      Consistent(Now(), z, hash)
    }

    ghost predicate Valid()
      reads this, bloom, bloom.bits
    {
      Assumptions(hash, z) && bloomBits > 0 && chunker.Valid() && Durable()
      && CachesOk(Now(), z, frameCache, dictCache)
      && bloom.Valid() && Reported(bloom, chunks.Keys)
    }

    constructor (hash: Vec -> Hash, z: Zip, train: seq<Vec> -> Vec, footer: (seq<Frame>, nat) -> Vec, frameSize: nat,
                 bloomBits: nat, bloomProbes: nat, chunker: StreamChunker)
      requires Assumptions(hash, z) && bloomBits > 0 && chunker.Valid()
      ensures Valid() && fresh(bloom) && fresh(bloom.bits) && lists == map[]
    {
      this.hash, this.z, this.train, this.footer := hash, z, train, footer;
      this.frameSize, this.bloomBits, this.bloomProbes, this.chunker := frameSize, bloomBits, bloomProbes, chunker;
      chunks, refs, batches, raw, objects := map[], map[], map[], map[], map[];
      frameCache, dictCache, bytes, lists := map[], map[], map[], map[];
      bloom := new BloomFilter(bloomBits, bloomProbes);
      new;
      hide *;
      NowParts();
      NothingStored(z, hash);
      NothingReported(bloom);
      ValidParts();
    }

    lemma NowParts()
      ensures Now() == State(chunks, refs, batches, raw, objects, bytes, lists)
      ensures Durable() <==> Consistent(Now(), z, hash)
    {}

    lemma ValidParts()
      ensures Valid() <==> Assumptions(hash, z) && bloomBits > 0 && chunker.Valid() && Durable()
                           && CachesOk(Now(), z, frameCache, dictCache) && bloom.Valid() && Reported(bloom, chunks.Keys)
    {}

    lemma ChunkAtNow(h: Hash)
      requires Durable() && h in chunks
      ensures ChunkOk(Now(), z, hash, h) && h in bytes && |bytes[h]| == chunks[h].size > 0 && hash(bytes[h]) == h
      ensures chunks[h].batch in batches && !batches[chunks[h].batch].stage.Deleted?
      ensures Consecutive(batches[chunks[h].batch].frames)
    {
      hide ChunkOk, CountsOk, ListsOk;
      assert ChunkOk(Now(), z, hash, h);
      ChunkAt(Now(), z, hash, h);
      assert BytesOk(Now(), chunks[h].batch);
    }

    // -------------------------------------------------------------- reading

    /** The dictionary of a sealed batch. */
    method Dictionary(b: BatchId) returns (dict: Vec)
      requires Valid() && b in batches && batches[b].stage.Sealed? && b in objects
      modifies this`dictCache
      ensures Valid() && dict == DictOf(batches[b], objects[b])
    {
      hide *;
      ValidParts();
      NowParts();
      DictParts(Now(), z, frameCache, dictCache, b);
      if b in dictCache {
        return dictCache[b];
      }
      dict := Part(objects[b], 0, batches[b].dictLen);
      dictCache := dictCache[b := dict];
      var evicted: set<BatchId> := *;
      DictsEvicted(Now(), z, frameCache, dictCache, evicted);
      dictCache := dictCache - evicted;
      ValidParts();
    }

    /** Find the frame, decompress it unless it is cached, and cut the chunk out. */
    method ReadSealed(b: BatchId, offset: nat, size: nat) returns (r: Option<Vec>)
      requires Valid() && b in batches && batches[b].stage.Sealed? && b in objects && Consecutive(batches[b].frames)
      modifies this`dictCache, this`frameCache
      ensures Valid()
      ensures forall data: Vec :: InSomeFrame(z, batches[b], objects[b], offset, data) && |data| == size > 0 ==>
                r == Some(data)
    {
      hide *;
      var row := batches[b];
      var i := BatchFrames.FindFrame(row.frames, offset);
      forall data: Vec | InSomeFrame(z, row, objects[b], offset, data) && |data| == size > 0
        ensures i >= 0 && |data| == size && InFrame(z, row, objects[b], offset, data, i)
      {
        BatchFrames.FoundFrame(z, row, objects[b], offset, data, i);
      }
      if i < 0 {
        return None;
      }
      var frame := DecompressedFrame(b, i);
      forall data: Vec | |data| == size && InFrame(z, row, objects[b], offset, data, i)
        ensures data == Part(frame, offset - row.frames[i].rawStart, size)
      {
        CutOut(z, row, objects[b], offset, data, i);
      }
      return Some(Part(frame, offset - row.frames[i].rawStart, size));
    }

    method DecompressedFrame(b: BatchId, i: nat) returns (frame: Vec)
      requires Valid() && b in batches && batches[b].stage.Sealed? && b in objects && i < |batches[b].frames|
      modifies this`dictCache, this`frameCache
      ensures Valid() && frame == Plain(z, batches[b], objects[b], i)
    {
      hide *;
      ValidParts();
      NowParts();
      FrameParts(Now(), z, frameCache, dictCache, b, i);
      if (b, i) in frameCache {
        return frameCache[(b, i)];
      }
      var fr := batches[b].frames[i];
      var comp := Part(objects[b], fr.compOffset, fr.compLen);
      var dict := Dictionary(b);
      frame := z.decompress(dict, comp);
      PlainIs(z, batches[b], objects[b], i);
      ValidParts();
      FrameParts(Now(), z, frameCache, dictCache, b, i);
      frameCache := frameCache[(b, i) := frame];
      var evicted: set<(BatchId, nat)> := *;
      FramesEvicted(Now(), z, frameCache, dictCache, evicted);
      frameCache := frameCache - evicted;
      ValidParts();
    }

    /** The bytes of a chunk, from the staging file or from the sealed object. */
    method ReadChunk(h: Hash) returns (r: Result<Vec, BatchError>)
      requires Valid()
      modifies this`dictCache, this`frameCache
      ensures Valid()
      ensures r.Ok? <==> h in chunks
      ensures h in chunks ==> h in bytes && r == Ok(bytes[h])
      ensures h !in chunks ==> r == Err(UnknownChunk)
    {
      hide *;
      ValidParts();
      NowParts();
      if h !in chunks {
        return Err(UnknownChunk);
      }
      var c := chunks[h];
      ChunkAtNow(h);
      PlaceOf(Now(), z, hash, h);
      var data: Option<Vec>;
      if batches[c.batch].stage.Open? || batches[c.batch].stage.Sealing? {
        data := if c.batch in raw then Some(Part(raw[c.batch], c.offset, c.size)) else None;
      } else {
        data := if c.batch in objects then Some([]) else None;
        if data.Some? {
          data := ReadSealed(c.batch, c.offset, c.size);
        }
      }
      if data.None? {
        return Err(NoStagingFile);
      }
      if hash(data.value) != h {
        return Err(Corrupt);
      }
      return Ok(data.value);
    }

    /** The bytes of a file: its chunks in order. */
    method ReadFile(f: FileId) returns (r: Result<Vec, BatchError>)
      requires Valid()
      modifies this`dictCache, this`frameCache
      ensures Valid() && r.Ok?
      ensures forall data: Vec :: Holds(Now(), f, data) ==> r == Ok(data)
    {
      hide *;
      ValidParts();
      NowParts();
      FileParts(Now(), z, hash, f);
      var out: Vec := [];
      var i := 0;
      NoContents(bytes);
      ghost var list := if f in lists then lists[f] else [];
      assert list[..0] == [];
      while Ref(f, i) in refs
        invariant Valid() && i <= |list| && (forall j :: 0 <= j < |list| ==> list[j] in bytes)
        invariant out == Contents(list[..i], bytes)
        decreases |list| - i
      {
        var piece := ReadChunk(refs[Ref(f, i)]);
        if piece.Err? {
          return piece;
        }
        ContentsNext(list, i, bytes);
        out := out + piece.value;
        i := i + 1;
      }
      assert list[..i] == list;
      return Ok(out);
    }

    // -------------------------------------------------------------- open batch and staging files

    /** The open batch with the smallest id, or a new one. */
    method OpenBatch() returns (b: BatchId)
      requires Valid()
      modifies this`batches
      ensures Valid() && SameFiles(old(Now()), Now())
      ensures b in batches && batches[b].stage.Open?
      ensures FirstOpen(old(batches), b) && batches == WithOpen(old(batches), b)
    {
      hide *;
      ghost var before := Now();
      NowParts();
      ValidParts();
      SameFilesSelf(before);
      var found := SmallestOpen();
      FoundOpen(batches, found);
      if found.Some? {
        return found.value;
      }
      b := NextBatchId();
      NewBatchStep(before, z, hash, b);
      NewOpen(batches, b);
      EmptyIsOpen();
      batches := batches[b := EMPTY_BATCH];
      NowParts();
      AllSealedSame(before, Now());
      CachesKept(before, Now(), z, frameCache, dictCache);
      ValidParts();
    }

    method SmallestOpen() returns (r: Option<BatchId>)
      ensures r.Some? ==> r.value in batches && batches[r.value].stage.Open?
      ensures forall b :: b in batches && batches[b].stage.Open? ==> r.Some? && r.value <= b
    {
      r := None;
      var rest := batches.Keys;
      while rest != {}
        invariant rest <= batches.Keys && (r.Some? ==> r.value in batches && batches[r.value].stage.Open?)
        invariant forall b :: b in batches && b !in rest && batches[b].stage.Open? ==> r.Some? && r.value <= b
        decreases rest
      {
        var b :| b in rest;
        if batches[b].stage.Open? && (r.None? || b < r.value) {
          r := Some(b);
        }
        rest := rest - {b};
      }
    }

    method NextBatchId() returns (b: BatchId)
      ensures b !in batches
    {
      b := 0;
      var rest := batches.Keys;
      while rest != {}
        invariant rest <= batches.Keys && forall c :: c in batches && c !in rest ==> c < b
        decreases rest
      {
        var c :| c in rest;
        b := if c >= b then c + 1 else b;
        rest := rest - {c};
      }
    }

    /** Append to a staging file, creating it if need be. */
    method AppendRaw(b: BatchId, data: Vec)
      requires Valid()
      modifies this`raw
      ensures Valid() && SameFiles(old(Now()), Now()) && raw == Appended(old(raw), b, data)
    {
      hide *;
      ghost var before := Now();
      NowParts();
      ValidParts();
      AppendStep(before, z, hash, b, data);
      raw := Appended(raw, b, data);
      NowParts();
      AllSealedSame(before, Now());
      CachesKept(before, Now(), z, frameCache, dictCache);
      ValidParts();
    }

    /** The filter first; only a positive answer is looked up. */
    method Lookup(h: Hash) returns (known: bool)
      requires Valid() && |h| >= 16
      ensures known <==> h in chunks
    {
      var hit := bloom.MightContain(h);
      return hit && h in chunks;
    }

    // -------------------------------------------------------------- ingest

    /** Append a piece to the staging file unless it is known or was just appended. */
    method StagePiece(b: BatchId, piece: Vec, ghost pieces: seq<Vec>, hashes: seq<Hash>, added: map<Hash, Spot>,
                      ghost stored: map<Hash, Vec>, ghost base: Vec)
      returns (more: seq<Hash>, added': map<Hash, Spot>, ghost stored': map<Hash, Vec>)
      requires Valid() && b in raw && piece != [] && Staged(chunks.Keys, raw[b], hash, pieces, hashes, added, stored)
      requires Laid(chunks.Keys, base, raw[b], hash, pieces, hashes, added)
      modifies this`raw
      ensures Valid() && SameFiles(old(Now()), Now()) && b in raw
      ensures Staged(chunks.Keys, raw[b], hash, pieces + [piece], more, added', stored')
      ensures Laid(chunks.Keys, base, raw[b], hash, pieces + [piece], more, added') && raw == old(raw)[b := raw[b]]
    {
      hide *;
      ValidParts();
      DigestSize(hash, z);
      SameFilesSelf(Now());
      var h := hash(piece);
      more, added', stored' := hashes + [h], added, stored;
      var known := h in added;
      if !known {
        known := Lookup(h);
      }
      if known {
        StagedKnown(chunks.Keys, raw[b], hash, pieces, hashes, added, stored, piece);
        LaidKnown(chunks.Keys, base, raw[b], hash, pieces, hashes, added, piece);
      } else {
        var offset := |raw[b]|;
        StagedNew(chunks.Keys, raw[b], hash, pieces, hashes, added, stored, piece);
        LaidNew(chunks.Keys, base, raw[b], hash, pieces, hashes, added, piece);
        AppendedAt(raw, b, piece);
        AppendRaw(b, piece);
        added', stored' := added[h := Spot(offset, |piece|)], stored[h := piece];
      }
    }

    /** Hash the pieces and append those that are new to the staging file. */
    method StagePieces(b: BatchId, pieces: seq<Vec>)
      returns (hashes: seq<Hash>, added: map<Hash, Spot>, ghost stored: map<Hash, Vec>, crashed: bool)
      requires Valid() && b in raw && forall i :: 0 <= i < |pieces| ==> pieces[i] != []
      modifies this`raw
      ensures Valid() && SameFiles(old(Now()), Now()) && b in raw
      ensures !crashed ==> Staged(chunks.Keys, raw[b], hash, pieces, hashes, added, stored)
                           && Laid(chunks.Keys, old(raw[b]), raw[b], hash, pieces, hashes, added)
      ensures raw == old(raw)[b := raw[b]]
      ensures crashed ==> exists j :: 0 <= j <= |pieces| && raw[b] == Grows(chunks.Keys, old(raw[b]), hash, pieces[..j])
    {
      hide *;
      hashes, added, stored, crashed := [], map[], map[], false;
      ghost var before := Now();
      SameFilesSelf(before);
      NothingStaged(chunks.Keys, raw[b], hash);
      NothingLaid(chunks.Keys, raw[b], hash);
      for i := 0 to |pieces|
        invariant Valid() && SameFiles(before, Now()) && b in raw
        invariant Staged(chunks.Keys, raw[b], hash, pieces[..i], hashes, added, stored)
        invariant Laid(chunks.Keys, old(raw[b]), raw[b], hash, pieces[..i], hashes, added)
        invariant raw == old(raw)[b := raw[b]]
      {
        if * {
          crashed := true;
          LaidGrows(chunks.Keys, old(raw[b]), raw[b], hash, pieces[..i], hashes, added);
          return;
        }
        ghost var now := Now();
        hashes, added, stored := StagePiece(b, pieces[i], pieces[..i], hashes, added, stored, old(raw[b]));
        SameFilesTrans(before, now, Now());
        assert pieces[..i + 1] == pieces[..i] + [pieces[i]];
      }
      assert pieces[..|pieces|] == pieces;
    }

    /** Record the new chunks, then one reference after the other, all in one transaction. */
    method CommitFile(f: FileId, b: BatchId, hashes: seq<Hash>, added: map<Hash, Spot>, ghost pieces: seq<Vec>,
                      ghost stored: map<Hash, Vec>)
      requires Valid() && f !in lists && b in batches && batches[b].stage.Open? && b in raw
      requires Staged(chunks.Keys, raw[b], hash, pieces, hashes, added, stored) && hashes == Digests(hash, pieces)
      modifies this`chunks, this`refs, this`batches, this`bytes, this`lists
      ensures Durable() && CachesOk(Now(), z, frameCache, dictCache)
      ensures OtherFiles(old(Now()), Now(), f) && Holds(Now(), f, Sequences.Join(pieces))
      ensures chunks.Keys == old(chunks.Keys) + added.Keys
      ensures f in lists && lists[f] == hashes && Grown(old(Now()), Now())
      ensures forall h :: h in added ==> RowAt(chunks, h, b, added[h])
    {
      hide *;
      ghost var start := Now();
      NowParts();
      ValidParts();
      StagedParts(chunks.Keys, raw[b], hash, pieces, hashes, added, stored);
      var c, bs, cur := BeginFile(f, b, added, start, pieces, hashes, stored);
      var rs := refs;
      ghost var inserted := cur;
      AssumptionParts(hash, z);
      c, rs, bs, cur := AddRefs(f, hashes, c, rs, bs, cur, start, pieces);
      ReferringParts(start, cur, z, hash, f, pieces, |pieces|);
      GrownTrans(start, inserted, cur);
      RowsStayAt(inserted, cur, b, added);
      chunks, refs, batches, bytes, lists := c, rs, bs, cur.bytes, cur.lists;
      NowParts();
      CachesSealed(start, Now(), z, frameCache, dictCache);
    }

    /** The rows of the new chunks, and an empty list for the file. */
    method BeginFile(f: FileId, b: BatchId, added: map<Hash, Spot>, ghost start: State, ghost pieces: seq<Vec>,
                     ghost hashes: seq<Hash>, ghost stored: map<Hash, Vec>)
      returns (c: map<Hash, ChunkRow>, bs: map<BatchId, BatchRow>, ghost cur: State)
      requires Durable() && start == Now() && b in batches && batches[b].stage.Open? && b in raw && f !in lists
      requires Staged(chunks.Keys, raw[b], hash, pieces, hashes, added, stored)
      ensures cur.chunks == c && cur.batches == bs && cur.refs == refs && cur.raw == raw && cur.objects == objects
      ensures Referring(start, cur, z, hash, f, [], 0) && c.Keys == chunks.Keys + added.Keys
      ensures Grown(start, cur) && forall h :: h in added ==> RowAt(c, h, b, added[h])
    {
      hide *;
      NowParts();
      c, bs, cur := InsertRows(b, added, start, pieces, hashes, stored);
      FileBegun(start, cur, z, hash, f);
      GrownSame(cur, cur.(lists := cur.lists[f := []]));
      GrownTrans(start, cur, cur.(lists := cur.lists[f := []]));
      cur := cur.(lists := cur.lists[f := []]);
    }

    method InsertRows(b: BatchId, added: map<Hash, Spot>, ghost start: State, ghost pieces: seq<Vec>,
                      ghost hashes: seq<Hash>,
                      ghost stored: map<Hash, Vec>)
      returns (c: map<Hash, ChunkRow>, bs: map<BatchId, BatchRow>, ghost cur: State)
      requires Durable() && start == Now() && b in batches && batches[b].stage.Open? && b in raw
      requires Staged(chunks.Keys, raw[b], hash, pieces, hashes, added, stored)
      ensures cur.chunks == c && cur.batches == bs && cur.refs == refs && cur.raw == raw && cur.objects == objects
      ensures Consistent(cur, z, hash) && SameFiles(start, cur) && SealedKept(start, cur) && cur.lists == lists
      ensures c.Keys == chunks.Keys + added.Keys
      ensures Grown(start, cur) && forall h :: h in added ==> RowAt(c, h, b, added[h])
    {
      hide *;
      NowParts();
      c, bs, cur := chunks, batches, start;
      var rest := added.Keys;
      InsertsStart(start, z, hash, b, added, stored);
      GrownSame(start, start);
      while rest != {}
        invariant rest <= added.Keys && cur.chunks == c && cur.batches == bs
        invariant Inserting(start, cur, z, hash, b, added, stored, rest) && Grown(start, cur)
        invariant forall h :: h in added && h !in rest ==> RowAt(c, h, b, added[h])
        decreases rest
      {
        var h :| h in rest;
        InsertNext(start, cur, z, hash, b, added, stored, rest, h, pieces, hashes);
        InsertNew(start, cur, z, hash, b, added, stored, rest, h, pieces, hashes);
        InsertParts(start, cur, z, hash, b, added, stored, rest);
        StagedSpot(chunks.Keys, raw[b], hash, pieces, hashes, added, stored, h);
        InsertIs(cur, h, b, added[h].offset, stored[h]);
        InsertGrown(cur, h, b, added[h].offset, stored[h]);
        GrownTrans(start, cur, InsertChunk(cur, h, b, added[h].offset, stored[h]));
        RowInserted(cur, h, b, stored[h], added, rest);
        c := c[h := ChunkRow(added[h].size, b, added[h].offset, 0)];
        bs := bs[b := bs[b].(rawBytes := bs[b].rawBytes + added[h].size)];
        cur := InsertChunk(cur, h, b, added[h].offset, stored[h]);
        rest := rest - {h};
      }
      InsertParts(start, cur, z, hash, b, added, stored, rest);
    }

    method AddRefs(f: FileId, hashes: seq<Hash>, c0: map<Hash, ChunkRow>, rs0: map<Ref, Hash>,
                   bs0: map<BatchId, BatchRow>,
                   ghost cur0: State, ghost start: State, ghost pieces: seq<Vec>)
      returns (c: map<Hash, ChunkRow>, rs: map<Ref, Hash>, bs: map<BatchId, BatchRow>, ghost cur: State)
      requires cur0.chunks == c0 && cur0.refs == rs0 && cur0.batches == bs0
      requires Referring(start, cur0, z, hash, f, [], 0) && NoCollisions(hash)
      requires |hashes| == |pieces| && forall i :: 0 <= i < |hashes| ==> hashes[i] in c0 && hashes[i] == hash(pieces[i])
      ensures cur.chunks == c && cur.refs == rs && cur.batches == bs && cur.raw == cur0.raw
              && cur.objects == cur0.objects
      ensures Referring(start, cur, z, hash, f, pieces, |pieces|) && c.Keys == c0.Keys && Grown(cur0, cur)
    {
      hide *;
      c, rs, bs, cur := c0, rs0, bs0, cur0;
      GrownSame(cur0, cur0);
      for i := 0 to |hashes|
        invariant cur.chunks == c && cur.refs == rs && cur.batches == bs && cur.raw == cur0.raw
                  && cur.objects == cur0.objects
        invariant Referring(start, cur, z, hash, f, pieces[..i], i) && c.Keys == c0.Keys && Grown(cur0, cur)
      {
        var h := hashes[i];
        ReferringNext(start, cur, z, hash, f, pieces[..i], i, h, pieces[i]);
        ReferringParts(start, cur, z, hash, f, pieces[..i], i);
        AddRefIs(cur, f, h);
        AddRefGrown(cur, f, h);
        GrownTrans(cur0, cur, AddRef(cur, f, h));
        assert pieces[..i] + [pieces[i]] == pieces[..i + 1];
        if c[h].refcount == 0 {
          bs := bs[c[h].batch := bs[c[h].batch].(liveBytes := bs[c[h].batch].liveBytes + c[h].size)];
        }
        c := c[h := c[h].(refcount := c[h].refcount + 1)];
        rs := rs[Ref(f, i) := h];
        cur := AddRef(cur, f, h);
      }
      assert pieces[..|pieces|] == pieces;
    }

    /** Chunk, deduplicate and record a file. A crash leaves it recorded wholly or not at all. */
    method Ingest(f: FileId, data: Vec, readSize: nat) returns (crashed: bool, ghost t: BatchId)
      requires Valid() && f !in lists
      modifies this, bloom, bloom.bits
      ensures Durable() && bloom == old(bloom) && (!crashed ==> Valid())
      ensures OtherFiles(old(Now()), Now(), f)
      ensures var pieces := Chunks(data, chunker.limits);
              (Holds(Now(), f, data) && Ingested(old(Now()), Now(), hash, f, pieces, t))
              || (crashed && SameFiles(old(Now()), Now())
                  && exists j :: Interrupted(old(Now()), Now(), hash, pieces, t, j))
    {
      hide *;
      ghost var start := Now();
      NowParts();
      var b := StartAppending();
      t := b;
      ghost var ready := Now();
      NowParts();
      ReadiedIs(start, ready, b);
      ValidParts();
      var reader := new Reader(data);
      var pieces := chunker.Split(reader, readSize);
      WholePieces(data, chunker);
      crashed := Record(f, b, pieces);
      IngestedSince(start, ready, Now(), hash, f, pieces, b);
      OtherFromSame(start, ready, Now(), f);
      if SameFiles(ready, Now()) {
        SameFilesTrans(start, ready, Now());
      }
    }

    /** The open batch, with a staging file to append to. */
    method StartAppending() returns (b: BatchId)
      requires Valid()
      modifies this`batches, this`raw
      ensures Valid() && SameFiles(old(Now()), Now())
      ensures b in batches && batches[b].stage.Open? && b in raw
      ensures FirstOpen(old(batches), b) && batches == WithOpen(old(batches), b)
      ensures raw == old(raw)[b := FileOf(old(raw), b)]
    {
      hide *;
      ghost var start := Now();
      b := OpenBatch();
      ghost var found := Now();
      CreatedRaw(raw, b);
      AppendRaw(b, []);
      SameFilesTrans(start, found, Now());
    }

    /** Stage the pieces and record the file. */
    method Record(f: FileId, b: BatchId, pieces: seq<Vec>) returns (crashed: bool)
      requires Valid() && f !in lists && b in batches && batches[b].stage.Open? && b in raw
      requires forall i :: 0 <= i < |pieces| ==> pieces[i] != []
      modifies this, bloom, bloom.bits
      ensures Durable() && bloom == old(bloom) && (!crashed ==> Valid())
      ensures OtherFiles(old(Now()), Now(), f)
      ensures (Holds(Now(), f, Sequences.Join(pieces)) && Recorded(old(Now()), Now(), hash, f, pieces, b))
              || (crashed && SameFiles(old(Now()), Now())
                  && exists j :: Halted(old(Now()), Now(), hash, pieces, b, j))
    {
      hide *;
      ghost var start := Now();
      NowParts();
      var hashes, added;
      ghost var stored;
      hashes, added, stored, crashed := StagePieces(b, pieces);
      ghost var staged := Now();
      NowParts();
      OtherOfSame(start, staged, f);
      ValidParts();
      if crashed {
        HaltedAt(start, staged, hash, pieces, b);
        return;
      }
      LaidGrows(chunks.Keys, start.raw[b], raw[b], hash, pieces, hashes, added);
      if * {
        assert pieces[..|pieces|] == pieces;
        HaltedAt(start, staged, hash, pieces, b);
        return true;
      }
      ghost var known := chunks.Keys;
      StagedDigests(known, raw[b], hash, z, pieces, hashes, added, stored);
      CommitFile(f, b, hashes, added, pieces, stored);
      NowParts();
      RecordedFrom(start, staged, Now(), hash, f, pieces, hashes, added, b);
      OtherFromSame(start, staged, Now(), f);
      if * {
        return true;
      }
      Announce(added.Keys, known);
      ReportedFewer(bloom, known + added.Keys, chunks.Keys);
      ValidParts();
    }

    /** Tell the filter about new chunks. */
    method Announce(keys: set<Hash>, ghost known: set<Hash>)
      requires bloom.Valid() && (forall h :: h in keys ==> |h| >= 16) && Reported(bloom, known)
      modifies bloom, bloom.bits
      ensures bloom.Valid() && Reported(bloom, known + keys)
    {
      hide *;
      var rest := keys;
      assert known + (keys - rest) == known;
      while rest != {}
        invariant rest <= keys && bloom.Valid() && Reported(bloom, known + (keys - rest))
        decreases rest
      {
        var h :| h in rest;
        bloom.Add(h);
        assert known + (keys - rest) + {h} == known + (keys - (rest - {h}));
        rest := rest - {h};
      }
      assert keys - rest == keys;
    }

    // -------------------------------------------------------------- release

    /** Drop a file's references in one transaction; chunks that nothing refers to any more are dead. */
    method Release(f: FileId)
      requires Valid()
      modifies this`chunks, this`refs, this`batches, this`lists
      ensures Valid() && OtherFiles(old(Now()), Now(), f) && f !in lists && Grown(old(Now()), Now())
    {
      hide *;
      ValidParts();
      var n := CountRefs(f);
      if n == 0 {
        ghost var start := Now();
        NowParts();
        NoRefs(start, z, hash, f);
        lists := lists - {f};
        NowParts();
        GrownSame(start, Now());
        CachesSealed(start, Now(), z, frameCache, dictCache);
        ValidParts();
      } else {
        ReleaseRows(f, n);
      }
    }

    method ReleaseRows(f: FileId, n: nat)
      requires Valid() && f in lists && n == |lists[f]|
      modifies this`chunks, this`refs, this`batches, this`lists
      ensures Valid() && OtherFiles(old(Now()), Now(), f) && f !in lists && Grown(old(Now()), Now())
    {
      hide *;
      ghost var start := Now();
      NowParts();
      ValidParts();
      var c, bs, cur := DropRefs(f, n, start);
      DropLast(start, cur, z, hash, f);
      chunks, refs, batches, lists := c, refs - FileRefs(refs, f), bs, lists - {f};
      NowParts();
      GrownSame(cur, Now());
      GrownTrans(start, cur, Now());
      CachesSealed(start, Now(), z, frameCache, dictCache);
      ValidParts();
    }

    method CountRefs(f: FileId) returns (n: nat)
      requires Durable()
      ensures n == if f in lists then |lists[f]| else 0
    {
      hide *;
      NowParts();
      FileParts(Now(), z, hash, f);
      n := 0;
      ghost var length := if f in lists then |lists[f]| else 0;
      while Ref(f, n) in refs
        invariant n <= length
        decreases length - n
      {
        n := n + 1;
      }
    }

    method DropRefs(f: FileId, n: nat, ghost start: State)
      returns (c: map<Hash, ChunkRow>, bs: map<BatchId, BatchRow>, ghost cur: State)
      requires Durable() && start == Now() && f in lists && n == |lists[f]|
      ensures cur.chunks == c && cur.batches == bs && Dropping(start, cur, z, hash, f, 0) && Grown(start, cur)
    {
      hide *;
      NowParts();
      c, bs, cur := chunks, batches, start;
      GrownSame(start, start);
      FileParts(start, z, hash, f);
      DroppingStart(start, z, hash, f);
      var i := n;
      while i > 0
        invariant 0 <= i <= n && cur.chunks == c && cur.batches == bs && Dropping(start, cur, z, hash, f, i)
        invariant Grown(start, cur)
      {
        i := i - 1;
        var h := refs[Ref(f, i)];
        DroppingNext(start, cur, z, hash, f, i + 1);
        DropRefIs(cur, f);
        DropRefGrown(cur, f);
        GrownTrans(start, cur, DropRef(cur, f));
        if c[h].refcount - 1 == 0 {
          bs := bs[c[h].batch := bs[c[h].batch].(liveBytes := bs[c[h].batch].liveBytes - c[h].size)];
        }
        c := c[h := c[h].(refcount := c[h].refcount - 1)];
        cur := DropRef(cur, f);
      }
    }

    // -------------------------------------------------------------- seal

    method SetSealing(b: BatchId)
      requires Valid() && b in batches && (batches[b].stage.Open? || batches[b].stage.Sealing?)
      modifies this`batches
      ensures Valid() && SameFiles(old(Now()), Now())
      ensures batches == old(batches)[b := old(batches)[b].(stage := Sealing)]
    {
      hide *;
      ghost var before := Now();
      NowParts();
      ValidParts();
      SealingStep(before, z, hash, b);
      batches := batches[b := batches[b].(stage := Sealing)];
      NowParts();
      SealedKeptStage(before, Now(), b);
      CachesSealed(before, Now(), z, frameCache, dictCache);
      ValidParts();
    }

    /** Replace or remove the object of a batch that is not sealed. */
    method SetObject(b: BatchId, blob: Option<Vec>)
      requires Valid() && b in batches && !batches[b].stage.Sealed?
      modifies this`objects
      ensures Valid() && SameFiles(old(Now()), Now())
      ensures objects == if blob.Some? then old(objects)[b := blob.value] else old(objects) - {b}
    {
      hide *;
      ghost var before := Now();
      NowParts();
      ValidParts();
      ghost var next := if blob.Some? then objects[b := blob.value] else objects - {b};
      ObjectStep(before, z, hash, b, next);
      if blob.Some? {
        objects := objects[b := blob.value];
      } else {
        objects := objects - {b};
      }
      NowParts();
      OtherObjectsSame(before, Now(), b);
      CachesKept(before, Now(), z, frameCache, dictCache);
      ValidParts();
    }

    /** The live chunks of a batch in some order, with their bytes read from the staging file. */
    method ReadStaged(b: BatchId) returns (order: seq<Hash>, pieces: seq<Vec>, ok: bool)
      requires Valid() && b in batches && batches[b].stage.Sealing? && b in raw
      ensures ok && Ordered(order, LiveIn(chunks, b)) && |pieces| == |order|
      ensures forall k :: 0 <= k < |order| ==>
                order[k] in chunks && order[k] in bytes && pieces[k] == bytes[order[k]]
                    && |pieces[k]| == chunks[order[k]].size > 0
    {
      hide *;
      ValidParts();
      NowParts();
      order := Enumerate(LiveIn(chunks, b));
      OrderedIn(order, LiveIn(chunks, b));
      LiveParts(chunks, b);
      pieces, ok := [], true;
      for k := 0 to |order|
        invariant |pieces| == k && ok
        invariant forall j :: 0 <= j < k ==>
                    order[j] in chunks && order[j] in bytes && pieces[j] == bytes[order[j]]
                        && |pieces[j]| == chunks[order[j]].size > 0
      {
        var h := order[k];
        ChunkAtNow(h);
        PlaceOf(Now(), z, hash, h);
        var piece := Part(raw[b], chunks[h].offset, chunks[h].size);
        if hash(piece) != h {
          return order, pieces, false;
        }
        pieces := pieces + [piece];
      }
    }

    method Enumerate(s: set<Hash>) returns (order: seq<Hash>)
      ensures Ordered(order, s)
    {
      order := [];
      var rest := s;
      while rest != {}
        invariant rest <= s && Ordered(order, s - rest)
        decreases rest
      {
        var h :| h in rest;
        order, rest := order + [h], rest - {h};
      }
      assert s - rest == s;
    }

    method OffsetMap(order: seq<Hash>, offsets: seq<nat>) returns (m: map<Hash, nat>)
      requires |order| == |offsets| && forall i, j :: 0 <= i < j < |order| ==> order[i] != order[j]
      ensures forall k :: 0 <= k < |order| ==> order[k] in m && m[order[k]] == offsets[k]
    {
      m := map[];
      for k := 0 to |order|
        invariant forall j :: 0 <= j < k ==> order[j] in m && m[order[j]] == offsets[j]
      {
        m := m[order[k] := offsets[k]];
      }
    }

    /** Dictionary, frames and index of a batch, and where its chunks end up. */
    method BuildObject(b: BatchId, order: seq<Hash>, pieces: seq<Vec>)
      returns (blob: Vec, m: map<Hash, nat>, row: BatchRow)
      requires Valid() && b in batches && !batches[b].stage.Sealed?
      requires Ordered(order, LiveIn(chunks, b)) && |pieces| == |order|
      requires forall k :: 0 <= k < |order| ==>
                 order[k] in chunks && order[k] in bytes && pieces[k] == bytes[order[k]]
                     && |pieces[k]| == chunks[order[k]].size > 0
      ensures row.stage.Sealed? && CanSeal(Now().(objects := objects[b := blob]), z, b, m, row)
      ensures FramedAs(z, frameSize, footer, pieces, row.frames, blob)
    {
      hide *;
      ValidParts();
      NowParts();
      AssumptionParts(hash, z);
      var dict := if |pieces| >= 8 then train(pieces) else [];
      var frames, front, offsets, total, plains, cuts := BatchFrames.Layout(z, dict, pieces, frameSize);
      row := BatchRow(Sealed, total, total, |dict|, frames);
      OrderedIn(order, LiveIn(chunks, b));
      m := OffsetMap(order, offsets);
      blob := front + footer(frames, |dict|);
      SealReady(Now().(objects := objects[b := blob]), z, b, order, pieces, dict, plains, front, footer(frames, |dict|),
                offsets, m, row);
      FramedWith(z, frameSize, footer, pieces, frames, blob, dict, plains, cuts);
    }

    /** Build the object, store it, switch the batch over in one transaction, and drop the staging file. */
    method SealPieces(b: BatchId, order: seq<Hash>, pieces: seq<Vec>) returns (done: bool)
      requires Valid() && b in batches && batches[b].stage.Sealing? && b in raw
      requires Ordered(order, LiveIn(chunks, b)) && |pieces| == |order|
      requires forall k :: 0 <= k < |order| ==>
                 order[k] in chunks && order[k] in bytes && pieces[k] == bytes[order[k]]
                     && |pieces[k]| == chunks[order[k]].size > 0
      modifies this`chunks, this`batches, this`raw, this`objects, this`dictCache
      ensures Durable() && SameFiles(old(Now()), Now())
      ensures done ==> Valid() && b in batches && batches[b].stage.Sealed? && b !in raw
      ensures batches.Keys == old(batches).Keys && forall id :: id in batches && id != b ==>
                batches[id] == old(batches)[id]
      ensures raw == old(raw) || raw == old(raw) - {b}
      ensures SealedAlone(old(Now()), Now(), b, done)
      ensures done ==> b in objects && FramedAs(z, frameSize, footer, pieces, batches[b].frames, objects[b])
    {
      hide *;
      ghost var start := Now();
      var blob, m, row := BuildObject(b, order, pieces);
      NowParts();
      var stored := StoreObject(b, blob);
      ghost var put := Now();
      ValidParts();
      NowParts();
      NothingSealed(start, put, b);
      if !stored {
        return false;
      }
      CanSealStored(start, put, z, b, blob, m, row);
      CommitSeal(b, m, row);
      ghost var sealed := Now();
      NowParts();
      SealReadyParts(put, z, b, m, row);
      RowsAreSealed(put, z, hash, b, m, row);
      SealedAloneNow(start, put, sealed, b);
      SameFilesTrans(start, put, sealed);
      ValidParts();
      if * {
        return false;
      }
      Unlink(b);
      NowParts();
      SealedAloneSame(start, sealed, Now(), b);
      ValidParts();
      SameFilesTrans(start, sealed, Now());
      return true;
    }

    /** Remove what an interrupted seal may have left, then store the object. */
    method StoreObject(b: BatchId, blob: Vec) returns (stored: bool)
      requires Valid() && b in batches && !batches[b].stage.Sealed?
      modifies this`objects
      ensures Valid() && SameFiles(old(Now()), Now())
      ensures stored ==> b in objects && objects[b] == blob
      ensures OthersSame(old(objects), objects, b)
    {
      hide *;
      ghost var start := Now();
      SetObject(b, None);
      OthersPut(old(objects), b, blob);
      ghost var cleared := Now();
      if * {
        return false;
      }
      SetObject(b, Some(blob));
      SameFilesTrans(start, cleared, Now());
      OthersPut(old(objects), b, blob);
      stored := *;
    }

    method CommitSeal(b: BatchId, m: map<Hash, nat>, row: BatchRow)
      requires Valid() && CanSeal(Now(), z, b, m, row) && b in batches && !batches[b].stage.Sealed? && row.stage.Sealed?
      modifies this`chunks, this`batches
      ensures Valid() && SameFiles(old(Now()), Now()) && batches == old(batches)[b := row]
      ensures chunks == SealedChunks(old(chunks), b, m)
    {
      hide *;
      ghost var before := Now();
      NowParts();
      ValidParts();
      SealStep(before, z, hash, b, m, row);
      SealIs(before, b, m, row);
      chunks, batches := SealedChunks(chunks, b, m), batches[b := row];
      NowParts();
      CachesSealed(before, Now(), z, frameCache, dictCache);
      ReportedFewer(bloom, before.chunks.Keys, chunks.Keys);
      ValidParts();
    }

    /** The staging file of a sealed batch goes, and a dictionary read before the seal is forgotten. */
    method Unlink(b: BatchId)
      requires Valid() && b in batches && (batches[b].stage.Sealed? || batches[b].stage.Deleted?)
      modifies this`raw, this`dictCache
      ensures Valid() && SameFiles(old(Now()), Now()) && raw == old(raw) - {b}
    {
      hide *;
      ghost var before := Now();
      NowParts();
      ValidParts();
      UnlinkStep(before, z, hash, b);
      raw := raw - {b};
      NowParts();
      SealedKeptSame(before, Now());
      CachesSealed(before, Now(), z, frameCache, dictCache);
      DictsEvicted(Now(), z, frameCache, dictCache, {b});
      dictCache := dictCache - {b};
      ValidParts();
    }

    /** Compress a batch's live chunks into a seekable object; a seal that was interrupted starts over. */
    method Seal(b: BatchId) returns (r: Result<bool, BatchError>)
      requires Valid()
      modifies this`chunks, this`batches, this`raw, this`objects, this`dictCache
      ensures Durable() && SameFiles(old(Now()), Now()) && (r.Ok? || r.error != Crashed ==> Valid())
      ensures r.Ok? && r.value ==> b in batches && batches[b].stage.Sealed? && b !in raw
      ensures forall id :: id != b ==>
                (id in batches <==> id in old(batches)) && (id in batches ==> batches[id] == old(batches)[id])
      ensures forall id :: id != b ==> (id in raw <==> id in old(raw)) && (id in raw ==> raw[id] == old(raw)[id])
      ensures batches.Keys == old(batches).Keys
      ensures r.Err? && r.error != Crashed ==> b !in old(raw)
      ensures r == Ok(false) ==> Now() == old(Now())
                                 && (b !in batches || batches[b].stage.Sealed? || batches[b].stage.Deleted?)
      ensures SealedAlone(old(Now()), Now(), b, r == Ok(true))
      ensures r == Ok(true) ==>
                b in objects
                    && Framed(z, frameSize, footer, LiveIn(old(chunks), b), old(bytes), batches[b].frames, objects[b])
    {
      hide *;
      ValidParts();
      SameFilesSelf(Now());
      NowParts();
      NothingSealed(Now(), Now(), b);
      if b !in batches || !(batches[b].stage.Open? || batches[b].stage.Sealing?) {
        return Ok(false);
      }
      ghost var start := Now();
      SetSealing(b);
      ghost var sealing := Now();
      NowParts();
      NothingSealed(start, sealing, b);
      ValidParts();
      if * {
        return Err(Crashed);
      }
      if b !in raw {
        return Err(NoStagingFile);
      }
      var order, pieces, ok := ReadStaged(b);
      var done := SealPieces(b, order, pieces);
      SameFilesTrans(start, sealing, Now());
      NowParts();
      SealedAloneFrom(start, sealing, Now(), b, done);
      if !done {
        return Err(Crashed);
      }
      FramedIn(z, frameSize, footer, order, start, pieces, b, batches[b].frames, objects[b]);
      return Ok(true);
    }

    // -------------------------------------------------------------- compact

    /** Append the bytes of live chunks to a staging file. */
    method Rewrite(order: seq<Hash>, t: BatchId) returns (moved: map<Hash, nat>, total: nat, crashed: bool)
      requires Valid() && t in raw && forall k :: 0 <= k < |order| ==> order[k] in chunks
      modifies this`raw, this`dictCache, this`frameCache
      ensures Valid() && SameFiles(old(Now()), Now()) && t in raw
      ensures !crashed ==> Moved(Now(), t, order, |order|, moved) && total == SizesOf(chunks, order, |order|)
                           && |raw[t]| == |old(raw[t])| + total
      ensures raw == old(raw)[t := raw[t]] && old(raw[t]) <= raw[t]
    {
      hide *;
      ghost var start := Now();
      SameFilesSelf(start);
      moved, total, crashed := map[], 0, false;
      NowParts();
      NothingMoved(start, t, order);
      for k := 0 to |order|
        invariant Valid() && SameFiles(start, Now()) && t in raw
        invariant Moved(Now(), t, order, k, moved) && total == SizesOf(chunks, order, k)
        invariant raw == old(raw)[t := raw[t]] && old(raw[t]) <= raw[t] && |raw[t]| == |old(raw[t])| + total
      {
        if * {
          crashed := true;
          return;
        }
        var h := order[k];
        var data := ReadChunk(h);
        ghost var now := Now();
        NowParts();
        ValidParts();
        ChunkAtNow(h);
        var offset := |raw[t]|;
        AppendedAt(raw, t, data.value);
        AppendRaw(t, data.value);
        NowParts();
        SameFilesTrans(start, now, Now());
        MovedNext(now, Now(), t, order, k, moved, h, data.value);
        SizesNext(chunks, order, k);
        moved := moved[h := offset];
        total := total + |data.value|;
      }
    }

    /** Move a sealed batch's live chunks to the open batch and delete its object. */
    method CompactOne(v: BatchId) returns (crashed: bool, ghost t: BatchId)
      requires Valid() && v in batches && batches[v].stage.Sealed?
      modifies this`chunks, this`batches, this`raw, this`objects, this`frameCache, this`dictCache
      ensures Durable() && SameFiles(old(Now()), Now()) && (!crashed ==> Valid())
      ensures if crashed then PartlyCompacted(old(Now()), Now(), v, t) else Compacted(old(Now()), Now(), v, t)
    {
      hide *;
      ghost var start := Now();
      NowParts();
      ValidParts();
      var target := StartAppending();
      t := target;
      ghost var ready := Now();
      NowParts();
      var order := Enumerate(LiveIn(chunks, v));
      OrderedIn(order, LiveIn(chunks, v));
      LiveParts(chunks, v);
      var moved, total;
      moved, total, crashed := Rewrite(order, target);
      ghost var written := Now();
      SameFilesTrans(start, ready, written);
      ValidParts();
      NowParts();
      Opened(start.batches, v, t);
      if crashed {
        NothingCompacted(start, written, v, t);
        return;
      }
      CompactReady(written, z, hash, v, t, order, moved, total);
      ReadyParts(written, v, t, moved, total);
      RowsAreMoved(written, z, hash, v, t, moved, total);
      crashed := FinishCompact(v, target, moved, total);
      NowParts();
      CompactedNow(start, written, Now(), v, t, moved, total);
      SameFilesTrans(start, written, Now());
    }

    /** Switch the tables over in one transaction. */
    method CommitCompact(v: BatchId, t: BatchId, moved: map<Hash, nat>, total: nat)
      requires Durable() && CanCompact(Now(), v, t, moved, total) && v in batches && t in batches
      modifies this`chunks, this`batches
      ensures Durable() && SameFiles(old(Now()), Now()) && chunks.Keys <= old(chunks).Keys
      ensures Switched(old(batches), batches, v, t) && chunks == MovedChunks(old(chunks), v, t, moved)
    {
      hide *;
      ghost var before := Now();
      NowParts();
      CompactStep(before, z, hash, v, t, moved, total);
      CompactIs(before, v, t, moved, total);
      chunks := MovedChunks(chunks, v, t, moved);
      batches := batches[t := batches[t].(rawBytes := batches[t].rawBytes + total,
                                          liveBytes := batches[t].liveBytes + total)]
                        [v := batches[v].(stage := Deleted, liveBytes := 0, frames := [])];
      NowParts();
    }

    /** Commit, then delete the object and forget what was cached of it. */
    method FinishCompact(v: BatchId, t: BatchId, moved: map<Hash, nat>, total: nat) returns (crashed: bool)
      requires Valid() && CanCompact(Now(), v, t, moved, total)
      requires v in batches && t in batches && batches[v].stage.Sealed? && batches[t].stage.Open?
      modifies this`chunks, this`batches, this`objects, this`frameCache, this`dictCache
      ensures Durable() && SameFiles(old(Now()), Now()) && (!crashed ==> Valid())
      ensures Switched(old(batches), batches, v, t) && chunks == MovedChunks(old(chunks), v, t, moved)
      ensures objects == if crashed then old(objects) else old(objects) - {v}
    {
      hide *;
      ghost var before := Now();
      NowParts();
      ValidParts();
      CommitCompact(v, t, moved, total);
      if * {
        return true;
      }
      ghost var committed := Now();
      NowParts();
      ReportedFewer(bloom, before.chunks.Keys, chunks.Keys);
      Discard(v, t, before);
      ValidParts();
      SameFilesTrans(before, committed, Now());
      return false;
    }

    /** Delete a compacted batch's object and forget what was cached of it. */
    method Discard(v: BatchId, t: BatchId, ghost before: State)
      requires Assumptions(hash, z) && bloomBits > 0 && chunker.Valid() && Durable()
      requires bloom.Valid() && Reported(bloom, chunks.Keys) && CachesOk(before, z, frameCache, dictCache)
      requires Switched(before.batches, batches, v, t) && objects == before.objects
      modifies this`objects, this`frameCache, this`dictCache
      ensures Valid() && SameFiles(old(Now()), Now()) && objects == old(objects) - {v}
    {
      hide *;
      ghost var committed := Now();
      NowParts();
      SwitchedParts(before.batches, batches, v, t);
      ObjectStep(committed, z, hash, v, objects - {v});
      objects := objects - {v};
      NowParts();
      ForgetBatch(before, Now(), z, frameCache, dictCache, v, t);
      frameCache := frameCache - FramesOf(frameCache, v);
      dictCache := dictCache - {v};
      ValidParts();
    }

    /** Compact every sealed batch whose live ratio is below the threshold. */
    method Compact(ratio: real) returns (crashed: bool, done: set<BatchId>)
      requires Valid()
      modifies this`chunks, this`batches, this`raw, this`objects, this`frameCache, this`dictCache
      ensures Durable() && SameFiles(old(Now()), Now()) && (!crashed ==> Valid())
      ensures var victims := Victims(old(batches), ratio);
              SparesOthers(old(Now()), Now(), victims)
              && (!crashed ==> done == victims)
              && (forall v :: v in done ==> v in batches && batches[v].stage.Deleted? && v !in objects)
      ensures !crashed ==> forall b :: b in batches && batches[b].stage.Sealed? ==> !Wasteful(batches[b], ratio)
    {
      hide *;
      ghost var start := Now();
      NowParts();
      ValidParts();
      SameFilesSelf(start);
      crashed, done := false, {};
      var victims := set b | b in batches && batches[b].stage.Sealed? && Wasteful(batches[b], ratio);
      ghost var all := victims;
      VictimsAre(batches, ratio, victims);
      CompactingStart(start, victims);
      while victims != {}
        invariant Valid() && SameFiles(start, Now()) && victims <= all && done == all - victims
        invariant Compacting(start, Now(), all, done)
        decreases victims
      {
        var v :| v in victims;
        ghost var now := Now();
        NowParts();
        StillSealed(start, now, all, done, v);
        ghost var t;
        crashed, t := CompactOne(v);
        NowParts();
        SameFilesTrans(start, now, Now());
        if crashed {
          CompactingHalts(start, now, Now(), all, done, v, t);
          return;
        }
        CompactingNext(start, now, Now(), all, done, v, t);
        victims, done := victims - {v}, done + {v};
      }
      NowParts();
      CompactingEnds(start, Now(), all, done, ratio);
      ValidParts();
    }

    // -------------------------------------------------------------- restart

    /** After a crash the caches are empty. A saved filter that counts as many items as the index has is
        taken over, otherwise the filter is rebuilt from the index. All operations are available again if
        and only if a filter that was taken over reports every chunk. */
    method Restart(saved: Option<BloomFilter>)
      requires Assumptions(hash, z) && bloomBits > 0 && chunker.Valid() && Durable()
      requires saved.Some? ==> saved.value.Valid()
      modifies this`frameCache, this`dictCache, this`bloom
      ensures Durable() && Now() == old(Now())
      ensures var taken := saved.Some? && saved.value.count == |chunks|;
              (if taken then bloom == saved.value else fresh(bloom) && fresh(bloom.bits))
              && (Valid() <==> (taken ==> Reported(saved.value, chunks.Keys)))
    {
      hide *;
      NowParts();
      frameCache, dictCache := map[], map[];
      NoCaches(Now(), z);
      if saved.Some? && saved.value.count == |chunks| {
        bloom := saved.value;
        ValidParts();
        return;
      }
      bloom := new BloomFilter(bloomBits, bloomProbes);
      IndexDigests(Now(), z, hash);
      NothingReported(bloom);
      Announce(chunks.Keys, {});
      assert {} + chunks.Keys == chunks.Keys;
      ValidParts();
    }

    /** Batches interrupted while sealing are sealed again from their staging files. */
    method Recover() returns (crashed: bool)
      requires Valid()
      modifies this`chunks, this`batches, this`raw, this`objects, this`dictCache
      ensures Durable() && SameFiles(old(Now()), Now()) && (!crashed ==> Valid())
      ensures !crashed ==> forall b :: b in batches && batches[b].stage.Sealing? ==> b !in raw
      ensures SparesSettled(old(Now()), Now())
    {
      hide *;
      ghost var start := Now();
      ValidParts();
      SameFilesSelf(start);
      crashed := false;
      var rest := set b | b in batches && batches[b].stage.Sealing?;
      NowParts();
      SettledSame(start);
      while rest != {}
        invariant Valid() && SameFiles(start, Now()) && SparesSettled(start, Now())
        invariant forall b :: b in rest ==> b in start.batches && start.batches[b].stage.Sealing?
        invariant forall b :: b in rest ==> b in batches && batches[b].stage.Sealing?
        invariant forall b :: b in batches && batches[b].stage.Sealing? && b in raw ==> b in rest
        decreases rest
      {
        var b :| b in rest;
        if b in raw {
          ghost var now := Now();
          NowParts();
          var r := Seal(b);
          SameFilesTrans(start, now, Now());
          NowParts();
          SettledNext(start, now, Now(), b, r == Ok(true));
          if r.Err? {
            return true;
          }
        }
        rest := rest - {b};
      }
      ValidParts();
    }
  }

  lemma SameFilesSelf(st: State)
    ensures SameFiles(st, st)
  {
    hide Holds;
  }

  lemma SameFilesTrans(a: State, b: State, c: State)
    requires SameFiles(a, b) && SameFiles(b, c)
    ensures SameFiles(a, c)
  {
    hide Holds;
  }

  lemma EmptyIsOpen()
    ensures EMPTY_BATCH.stage.Open?
  {}

  /** No sealed batch differs. */
  lemma AllSealedSame(a: State, b: State)
    requires forall id :: id in a.objects ==> id in b.objects && b.objects[id] == a.objects[id]
    requires forall id :: id in a.batches && a.batches[id].stage.Sealed? ==>
               id in b.batches && b.batches[id].stage.Sealed? && b.batches[id].frames == a.batches[id].frames
               && b.batches[id].dictLen == a.batches[id].dictLen
    ensures forall id :: id in a.batches && a.batches[id].stage.Sealed? && id in a.objects ==> SealedSame(a, b, id)
  {}

  lemma DigestSize(hash: Vec -> Hash, z: Zip)
    requires Assumptions(hash, z)
    ensures forall x :: |hash(x)| >= 16
  {
    hide NoCollisions, Inverse;
  }

  // ---------------------------------------------------------------- staging

  lemma AppendedAt(raw: map<BatchId, Vec>, b: BatchId, data: Vec)
    requires b in raw
    ensures b in Appended(raw, b, data) && Appended(raw, b, data)[b] == raw[b] + data
    ensures Appended(raw, b, data) == raw[b := raw[b] + data]
  {}

  // ---------------------------------------------------------------- committing a file

  /** Objects and sealed batches are the same, but for their byte counts. */
  ghost predicate SealedKept(a: State, b: State) {
    b.objects == a.objects
    && forall id :: id in a.batches && a.batches[id].stage.Sealed? ==>
         id in b.batches && b.batches[id].stage.Sealed? && b.batches[id].frames == a.batches[id].frames
         && b.batches[id].dictLen == a.batches[id].dictLen
  }

  lemma SealedKeptSame(a: State, b: State)
    requires b.objects == a.objects && b.batches == a.batches
    ensures SealedKept(a, b)
  {}

  lemma SealedKeptTrans(a: State, b: State, c: State)
    requires SealedKept(a, b) && SealedKept(b, c)
    ensures SealedKept(a, c)
  {}

  lemma CachesSealed(a: State, b: State, z: Zip, frames: map<(BatchId, nat), Vec>, dicts: map<BatchId, Vec>)
    requires CachesOk(a, z, frames, dicts) && SealedKept(a, b)
    ensures CachesOk(b, z, frames, dicts)
  {
    AllSealedSame(a, b);
    hide CachesOk, SealedSame;
    CachesKept(a, b, z, frames, dicts);
  }

  lemma OtherFromSame(a: State, b: State, c: State, f: FileId)
    requires SameFiles(a, b) && OtherFiles(b, c, f)
    ensures OtherFiles(a, c, f)
  {
    hide Holds;
  }

  lemma FileBegun(start: State, cur: State, z: Zip, hash: Vec -> Hash, f: FileId)
    requires Consistent(cur, z, hash) && SameFiles(start, cur) && SealedKept(start, cur) && f !in cur.lists
    ensures Referring(start, cur.(lists := cur.lists[f := []]), z, hash, f, [], 0)
  {
    hide *;
    var n := cur.(lists := cur.lists[f := []]);
    NewFileStep(cur, z, hash, f);
    SealedKeptSame(cur, n);
    SealedKeptTrans(start, cur, n);
    OtherFromSame(start, cur, n, f);
    NoJoin();
    NoDigests(hash);
    ReferringMade(start, n, z, hash, f, [], 0);
  }

  lemma AssumptionParts(hash: Vec -> Hash, z: Zip)
    requires Assumptions(hash, z)
    ensures NoCollisions(hash) && Inverse(z)
  {
    hide NoCollisions, Inverse;
  }

  lemma OtherOfSame(a: State, b: State, f: FileId)
    requires SameFiles(a, b)
    ensures OtherFiles(a, b, f)
  {
    hide Holds;
  }

  lemma OtherSelf(a: State, f: FileId)
    ensures OtherFiles(a, a, f)
  {
    hide Holds;
  }

  lemma CreatedRaw(raw: map<BatchId, Vec>, b: BatchId)
    ensures b in Appended(raw, b, []) && Appended(raw, b, []) == raw[b := FileOf(raw, b)]
  {
    assert FileOf(raw, b) + [] == FileOf(raw, b);
  }

  lemma FoundOpen(batches: map<BatchId, BatchRow>, found: Option<BatchId>)
    requires found.Some? ==> found.value in batches && batches[found.value].stage.Open?
    requires forall b :: b in batches && batches[b].stage.Open? ==> found.Some? && found.value <= b
    ensures found.Some? ==> FirstOpen(batches, found.value) && WithOpen(batches, found.value) == batches
    ensures found.None? ==> forall b :: b in batches ==> !batches[b].stage.Open?
  {}

  lemma NewOpen(batches: map<BatchId, BatchRow>, b: BatchId)
    requires b !in batches && forall id :: id in batches ==> !batches[id].stage.Open?
    ensures FirstOpen(batches, b) && WithOpen(batches, b) == batches[b := EMPTY_BATCH]
  {}

  /** What the chunker promises: no piece is empty and together they are the input. */
  lemma WholePieces(data: Vec, c: StreamChunker)
    requires c.Valid()
    ensures ValidLimits(c.limits)
    ensures forall i :: 0 <= i < |Chunks(data, c.limits)| ==> Chunks(data, c.limits)[i] != []
    ensures Sequences.Join(Chunks(data, c.limits)) == data
  {
    hide Chunks, Rabin.TablesOk, Sequences.Join;
    ChunksJoin(data, c.limits);
    forall i: nat | i < |Chunks(data, c.limits)|
      ensures Chunks(data, c.limits)[i] != []
    {
      ChunkSizes(data, c.limits, i);
    }
  }

  lemma StagedDigests(known: set<Hash>, file: Vec, hash: Vec -> Hash, z: Zip, pieces: seq<Vec>, hashes: seq<Hash>,
                      added: map<Hash, Spot>, stored: map<Hash, Vec>)
    requires Staged(known, file, hash, pieces, hashes, added, stored) && Assumptions(hash, z)
    ensures forall h :: h in added.Keys ==> |h| >= 16
  {
    hide InRaw, NoCollisions, Inverse;
    forall h | h in added.Keys
      ensures |h| >= 16
    {
      assert |hash(stored[h])| == HASH_SIZE;
    }
  }

  // ---------------------------------------------------------------- releasing a file

  function FileRefs(refs: map<Ref, Hash>, f: FileId): set<Ref> {
    set r | r in refs && r.file == f
  }

  /** The references of file f from position i on are dropped. */
  ghost predicate Dropping(start: State, cur: State, z: Zip, hash: Vec -> Hash, f: FileId, i: nat) {
    Consistent(cur, z, hash) && OtherFiles(start, cur, f) && SealedKept(start, cur)
    && cur.raw == start.raw && cur.bytes == start.bytes && cur.chunks.Keys == start.chunks.Keys
    && f in start.lists && i <= |start.lists[f]| && cur.lists == start.lists[f := start.lists[f][..i]]
    && cur.refs == start.refs - TailRefs(start.refs, f, i)
  }

  function TailRefs(refs: map<Ref, Hash>, f: FileId, i: nat): set<Ref> {
    set r | r in refs && r.file == f && r.seqno >= i
  }

  lemma DroppingStart(st: State, z: Zip, hash: Vec -> Hash, f: FileId)
    requires Consistent(st, z, hash) && f in st.lists
    ensures Dropping(st, st, z, hash, f, |st.lists[f]|)
  {
    assert ListsOk(st);
    assert TailRefs(st.refs, f, |st.lists[f]|) == {};
    assert st.lists[f][..|st.lists[f]|] == st.lists[f];
    OtherSelf(st, f);
    hide Consistent, OtherFiles;
  }

  lemma TailNext(refs: map<Ref, Hash>, f: FileId, i: nat)
    requires i > 0 && Ref(f, i - 1) in refs
    ensures refs - TailRefs(refs, f, i) - {Ref(f, i - 1)} == refs - TailRefs(refs, f, i - 1)
  {
    assert TailRefs(refs, f, i - 1) == TailRefs(refs, f, i) + {Ref(f, i - 1)};
  }

  lemma DroppingParts(start: State, cur: State, z: Zip, hash: Vec -> Hash, f: FileId, i: nat)
    requires Dropping(start, cur, z, hash, f, i)
    ensures Consistent(cur, z, hash) && OtherFiles(start, cur, f) && SealedKept(start, cur)
    ensures f in cur.lists && |cur.lists[f]| == i && f in start.lists && i <= |start.lists[f]|
    ensures cur.lists[f] == start.lists[f][..i] && cur.raw == start.raw && cur.bytes == start.bytes
    ensures cur.objects == start.objects && cur.chunks.Keys == start.chunks.Keys
    ensures cur.lists == start.lists[f := start.lists[f][..i]] && cur.refs == start.refs - TailRefs(start.refs, f, i)
  {
    hide Consistent, OtherFiles, TailRefs;
  }

  lemma DropRefIs(st: State, f: FileId)
    requires f in st.lists && st.lists[f] != []
    requires var h := st.lists[f][|st.lists[f]| - 1];
             h in st.chunks && st.chunks[h].refcount > 0 && st.chunks[h].batch in st.batches
    ensures var n := DropRef(st, f); var h := st.lists[f][|st.lists[f]| - 1]; var c := st.chunks[h];
            n.chunks == st.chunks[h := c.(refcount := c.refcount - 1)]
                && n.refs == st.refs - {Ref(f, |st.lists[f]| - 1)}
            && n.batches == (if c.refcount - 1 == 0 then
                               st.batches[c.batch := st.batches[c.batch].(liveBytes :=
                                 st.batches[c.batch].liveBytes - c.size)]
                             else st.batches)
            && n.raw == st.raw && n.objects == st.objects && n.bytes == st.bytes
            && n.lists == st.lists[f := st.lists[f][..|st.lists[f]| - 1]]
    ensures SealedKept(st, DropRef(st, f))
  {}

  lemma DroppingNext(start: State, cur: State, z: Zip, hash: Vec -> Hash, f: FileId, i: nat)
    requires Dropping(start, cur, z, hash, f, i) && i > 0 && Consistent(start, z, hash)
    ensures f in cur.lists && cur.lists[f] != [] && Ref(f, i - 1) in start.refs
    ensures var h := cur.lists[f][|cur.lists[f]| - 1];
            h == start.refs[Ref(f, i - 1)] && h in cur.chunks && cur.chunks[h].refcount > 0
            && cur.chunks[h].batch in cur.batches && Dropping(start, DropRef(cur, f), z, hash, f, i - 1)
  {
    hide *;
    DroppingParts(start, cur, z, hash, f, i);
    FileParts(start, z, hash, f);
    DropRefStep(cur, z, hash, f);
    DropRefIs(cur, f);
    TailNext(start.refs, f, i);
    var n := DropRef(cur, f);
    OtherTrans(start, cur, n, f);
    SealedKeptTrans(start, cur, n);
    assert start.lists[f][..i][..i - 1] == start.lists[f][..i - 1];
    DroppingMade(start, n, z, hash, f, i - 1);
  }

  lemma DroppingMade(start: State, cur: State, z: Zip, hash: Vec -> Hash, f: FileId, i: nat)
    requires Consistent(cur, z, hash) && OtherFiles(start, cur, f) && SealedKept(start, cur)
    requires cur.raw == start.raw && cur.bytes == start.bytes && cur.chunks.Keys == start.chunks.Keys
    requires f in start.lists && i <= |start.lists[f]| && cur.lists == start.lists[f := start.lists[f][..i]]
    requires cur.refs == start.refs - TailRefs(start.refs, f, i)
    ensures Dropping(start, cur, z, hash, f, i)
  {
    hide Consistent, OtherFiles, SealedKept, TailRefs;
  }

  lemma DropLast(start: State, cur: State, z: Zip, hash: Vec -> Hash, f: FileId)
    requires Dropping(start, cur, z, hash, f, 0)
    ensures f in cur.lists && cur.lists - {f} == start.lists - {f} && cur.refs == start.refs - FileRefs(start.refs, f)
    ensures cur.raw == start.raw && cur.bytes == start.bytes && cur.objects == start.objects
            && cur.chunks.Keys == start.chunks.Keys
    ensures var n := cur.(lists := cur.lists - {f});
            Consistent(n, z, hash) && OtherFiles(start, n, f) && SealedKept(start, n)
  {
    hide *;
    DroppingParts(start, cur, z, hash, f, 0);
    AllTail(start.refs, f);
    assert cur.lists - {f} == start.lists - {f};
    DropFileStep(cur, z, hash, f);
    var n := cur.(lists := cur.lists - {f});
    OtherTrans(start, cur, n, f);
    SealedKeptSame(cur, n);
    SealedKeptTrans(start, cur, n);
  }

  lemma AllTail(refs: map<Ref, Hash>, f: FileId)
    ensures TailRefs(refs, f, 0) == FileRefs(refs, f)
  {}

  /** Releasing a file that has no references. */
  lemma NoRefs(st: State, z: Zip, hash: Vec -> Hash, f: FileId)
    requires Consistent(st, z, hash) && (f in st.lists ==> st.lists[f] == [])
    ensures var n := st.(lists := st.lists - {f}); Consistent(n, z, hash) && OtherFiles(st, n, f) && SealedKept(st, n)
  {
    var n := st.(lists := st.lists - {f});
    SealedKeptSame(st, n);
    if f in st.lists {
      DropFileStep(st, z, hash, f);
    } else {
      assert st.lists - {f} == st.lists;
      OtherSelf(st, f);
    }
    hide *;
  }

  lemma SealedKeptStage(a: State, b: State, id: BatchId)
    requires id in a.batches && !a.batches[id].stage.Sealed? && b.objects == a.objects
    requires b.batches == a.batches[id := a.batches[id].(stage := Sealing)]
    ensures SealedKept(a, b)
  {}

  lemma OtherObjectsSame(a: State, b: State, id: BatchId)
    requires id in a.batches && !a.batches[id].stage.Sealed? && b.batches == a.batches
    requires forall o :: o != id && o in a.objects ==> o in b.objects && b.objects[o] == a.objects[o]
    ensures forall o :: o in a.batches && a.batches[o].stage.Sealed? && o in a.objects ==> SealedSame(a, b, o)
  {}

  // ---------------------------------------------------------------- sealing

  /** Each element of the set exactly once. */
  ghost predicate Ordered(order: seq<Hash>, s: set<Hash>) {
    (forall i, j :: 0 <= i < j < |order| ==> order[i] != order[j]) && forall h :: h in order <==> h in s
  }

  lemma OrderedIn(order: seq<Hash>, s: set<Hash>)
    requires Ordered(order, s)
    ensures forall k :: 0 <= k < |order| ==> order[k] in s
    ensures forall i, j :: 0 <= i < j < |order| ==> order[i] != order[j]
    ensures forall h :: h in s ==> h in order
  {}

  lemma LiveParts(chunks: map<Hash, ChunkRow>, b: BatchId)
    ensures forall h :: h in LiveIn(chunks, b) ==> h in chunks && chunks[h].batch == b && chunks[h].refcount > 0
  {}

  lemma {:induction false} LengthIsSum(order: seq<Hash>, s: set<Hash>, pieces: seq<Vec>, chunks: map<Hash, ChunkRow>)
    requires Ordered(order, s) && s <= chunks.Keys && |pieces| == |order|
    requires forall k :: 0 <= k < |order| ==> order[k] in chunks && |pieces[k]| == chunks[order[k]].size
    ensures BatchFrames.Length(pieces) == SizeSum(chunks, s)
    decreases |order|
  {
    if order == [] {
      OrderedIn(order, s);
      assert s == {};
    } else {
      var n := |order| - 1;
      var h := order[n];
      assert h in order;
      OrderedLess(order, s);
      LengthIsSum(order[..n], s - {h}, pieces[..n], chunks);
      SizeSumPick(chunks, s, h);
    }
  }

  lemma OrderedLess(order: seq<Hash>, s: set<Hash>)
    requires Ordered(order, s) && order != []
    ensures Ordered(order[..|order| - 1], s - {order[|order| - 1]})
  {
    var n := |order| - 1;
    assert order == order[..n] + [order[n]];
  }

  /** The laid-out object holds every live chunk of the batch. */
  lemma SealReady(st: State, z: Zip, b: BatchId, order: seq<Hash>, pieces: seq<Vec>, dict: Vec, plains: seq<Vec>,
                  blob: Vec,
                  tail: Vec, offsets: seq<nat>, m: map<Hash, nat>, row: BatchRow)
    requires Inverse(z) && b in st.batches && !st.batches[b].stage.Sealed? && b in st.objects
             && st.objects[b] == blob + tail
    requires Ordered(order, LiveIn(st.chunks, b)) && |order| == |pieces| == |offsets|
    requires forall k :: 0 <= k < |order| ==>
               order[k] in st.chunks && order[k] in st.bytes && pieces[k] == st.bytes[order[k]]
               && |pieces[k]| == st.chunks[order[k]].size > 0
    requires BatchFrames.Built(z, dict, row.frames, plains, blob)
    requires row == BatchRow(Sealed, BatchFrames.Length(pieces), BatchFrames.Length(pieces), |dict|, row.frames)
    requires forall k :: 0 <= k < |pieces| ==> BatchFrames.Covered(plains, offsets[k], pieces[k])
    requires forall k :: 0 <= k < |order| ==> order[k] in m && m[order[k]] == offsets[k]
    ensures CanSeal(st, z, b, m, row) && row.stage.Sealed?
    ensures SealedKept(st, SealCommit(st, b, m, row))
  {
    hide BatchFrames.Built, BatchFrames.Covered, BatchFrames.Length, LiveIn, InSomeFrame, Ordered, Consecutive, Inverse,
    SizeSum;
    BatchFrames.BlobGrows(z, dict, row.frames, plains, blob, tail);
    BatchFrames.BuiltConsecutive(z, dict, row.frames, plains, blob);
    LengthIsSum(order, LiveIn(st.chunks, b), pieces, st.chunks);
    OrderedIn(order, LiveIn(st.chunks, b));
    forall h | h in LiveIn(st.chunks, b) && h in st.bytes
      ensures h in m && InSomeFrame(z, row, st.objects[b], m[h], st.bytes[h])
    {
      var k :| 0 <= k < |order| && order[k] == h;
      BatchFrames.CoveredInFrame(z, row, dict, plains, st.objects[b], offsets[k], pieces[k]);
    }
  }

  lemma CanSealStored(a: State, b: State, z: Zip, id: BatchId, blob: Vec, m: map<Hash, nat>, row: BatchRow)
    requires CanSeal(a.(objects := a.objects[id := blob]), z, id, m, row)
    requires b == a.(objects := b.objects) && id in b.objects && b.objects[id] == blob
    ensures CanSeal(b, z, id, m, row)
  {
    hide SizeSum, InSomeFrame, Consecutive, LiveIn;
  }

  lemma SealIs(st: State, b: BatchId, m: map<Hash, nat>, row: BatchRow)
    requires b in st.batches && !st.batches[b].stage.Sealed?
    ensures SealCommit(st, b, m, row) == st.(chunks := SealedChunks(st.chunks, b, m), batches := st.batches[b := row])
    ensures SealedKept(st, SealCommit(st, b, m, row)) && SealedChunks(st.chunks, b, m).Keys <= st.chunks.Keys
  {}

  /** The object is the dictionary, then the pieces in frames that are closed as soon as they are full, then the
      index. */
  ghost predicate FramedAs(z: Zip, frameSize: nat, footer: (seq<Frame>, nat) -> Vec, pieces: seq<Vec>,
                           frames: seq<Frame>, blob: Vec)
  {
    exists dict, plains, cuts :: Frames(z, frameSize, footer, pieces, frames, blob, dict, plains, cuts)
  }

  ghost predicate Frames(z: Zip, frameSize: nat, footer: (seq<Frame>, nat) -> Vec, pieces: seq<Vec>,
                         frames: seq<Frame>, blob: Vec, dict: Vec, plains: seq<Vec>, cuts: seq<nat>)
  {
    BatchFrames.Closed(pieces, plains, cuts, frameSize)
    && blob == BatchFrames.Packed(z, dict, plains) + footer(frames, |dict|)
    && BatchFrames.Built(z, dict, frames, plains, BatchFrames.Packed(z, dict, plains))
  }

  lemma FramedWith(z: Zip, frameSize: nat, footer: (seq<Frame>, nat) -> Vec, pieces: seq<Vec>, frames: seq<Frame>,
                   blob: Vec, dict: Vec, plains: seq<Vec>, cuts: seq<nat>)
    requires BatchFrames.Closed(pieces, plains, cuts, frameSize)
    requires blob == BatchFrames.Packed(z, dict, plains) + footer(frames, |dict|)
    requires BatchFrames.Built(z, dict, frames, plains, BatchFrames.Packed(z, dict, plains))
    ensures FramedAs(z, frameSize, footer, pieces, frames, blob)
  {
    hide BatchFrames.Closed, BatchFrames.Packed, BatchFrames.Built;
    assert Frames(z, frameSize, footer, pieces, frames, blob, dict, plains, cuts);
  }

  /** The object holds exactly these chunks, in some order. */
  ghost predicate Framed(z: Zip, frameSize: nat, footer: (seq<Frame>, nat) -> Vec, live: set<Hash>,
                         bytes: map<Hash, Vec>, frames: seq<Frame>, blob: Vec)
  {
    exists order, pieces :: Ordered(order, live) && BytesOf(order, bytes, pieces)
                            && FramedAs(z, frameSize, footer, pieces, frames, blob)
  }

  ghost predicate BytesOf(order: seq<Hash>, bytes: map<Hash, Vec>, pieces: seq<Vec>) {
    |pieces| == |order| && forall k :: 0 <= k < |order| ==> order[k] in bytes && pieces[k] == bytes[order[k]]
  }

  lemma FramedIn(z: Zip, frameSize: nat, footer: (seq<Frame>, nat) -> Vec, order: seq<Hash>, st: State,
                 pieces: seq<Vec>, b: BatchId, frames: seq<Frame>, blob: Vec)
    requires Ordered(order, LiveIn(st.chunks, b)) && |pieces| == |order|
    requires forall k :: 0 <= k < |order| ==> order[k] in st.bytes && pieces[k] == st.bytes[order[k]]
    requires FramedAs(z, frameSize, footer, pieces, frames, blob)
    ensures Framed(z, frameSize, footer, LiveIn(st.chunks, b), st.bytes, frames, blob)
  {
    hide Ordered, FramedAs, LiveIn;
    assert BytesOf(order, st.bytes, pieces);
  }

  /** Every row but those of batch s stays. Of batch s the dead rows are gone, and the live ones have a new offset. */
  ghost predicate RowsSealed(a: map<Hash, ChunkRow>, b: map<Hash, ChunkRow>, s: BatchId) {
    (forall h :: h in b <==> h in a && (a[h].batch == s ==> a[h].refcount > 0))
    && forall h :: h in b ==> b[h] == if a[h].batch == s then a[h].(offset := b[h].offset) else a[h]
  }

  /** Sealing batch s changes chunk rows only in the transaction that seals it, and touches no other object. */
  ghost predicate SealedAlone(a: State, b: State, s: BatchId, done: bool) {
    OthersSame(a.objects, b.objects, s)
    && (RowsSealed(a.chunks, b.chunks, s) || (!done && b.chunks == a.chunks))
  }

  ghost predicate OthersSame(a: map<BatchId, Vec>, b: map<BatchId, Vec>, s: BatchId) {
    a - {s} == b - {s}
  }

  lemma OthersPut(objects: map<BatchId, Vec>, b: BatchId, blob: Vec)
    ensures OthersSame(objects, objects - {b}, b) && OthersSame(objects, (objects - {b})[b := blob], b)
  {}

  lemma NothingSealed(a: State, b: State, s: BatchId)
    requires b.chunks == a.chunks && (b.objects == a.objects || OthersSame(a.objects, b.objects, s))
    ensures SealedAlone(a, b, s, false)
  {
    hide RowsSealed;
  }

  lemma SealReadyParts(st: State, z: Zip, b: BatchId, m: map<Hash, nat>, row: BatchRow)
    requires CanSeal(st, z, b, m, row)
    ensures forall h :: h in LiveIn(st.chunks, b) && h in st.bytes ==> h in m
  {
    hide InSomeFrame, SizeSum, Consecutive, LiveIn;
  }

  lemma RowsAreSealed(st: State, z: Zip, hash: Vec -> Hash, b: BatchId, m: map<Hash, nat>, row: BatchRow)
    requires CanSeal(st, z, b, m, row) && Consistent(st, z, hash)
    ensures RowsSealed(st.chunks, SealedChunks(st.chunks, b, m), b)
  {
    hide *;
    SealReadyParts(st, z, b, m, row);
    BytesKnown(st, z, hash);
    RowsSealedBy(st.chunks, b, m);
  }

  lemma BytesKnown(st: State, z: Zip, hash: Vec -> Hash)
    requires Consistent(st, z, hash)
    ensures forall h :: h in st.chunks ==> h in st.bytes
    ensures forall h, b :: h in LiveIn(st.chunks, b) ==> h in st.chunks && h in st.bytes
  {
    hide CountsOk, ListsOk, BytesOk, Located;
    assert forall h :: h in st.chunks ==> ChunkOk(st, z, hash, h);
  }

  lemma RowsSealedBy(chunks: map<Hash, ChunkRow>, b: BatchId, m: map<Hash, nat>)
    requires forall h :: h in LiveIn(chunks, b) ==> h in m
    ensures RowsSealed(chunks, SealedChunks(chunks, b, m), b)
  {
    assert forall h :: h in LiveIn(chunks, b) <==> h in chunks && chunks[h].batch == b && chunks[h].refcount > 0;
    hide LiveIn;
  }

  lemma SealedAloneNow(a: State, m: State, b: State, s: BatchId)
    requires m.chunks == a.chunks && OthersSame(a.objects, m.objects, s) && b.objects == m.objects
    requires RowsSealed(m.chunks, b.chunks, s)
    ensures SealedAlone(a, b, s, true) && SealedAlone(a, b, s, false)
  {
    hide RowsSealed;
  }

  lemma SealedAloneSame(a: State, m: State, b: State, s: BatchId)
    requires SealedAlone(a, m, s, true) && b.chunks == m.chunks && b.objects == m.objects
    ensures SealedAlone(a, b, s, true)
  {
    hide RowsSealed, OthersSame;
  }

  lemma SealedAloneFrom(a: State, m: State, b: State, s: BatchId, done: bool)
    requires m.chunks == a.chunks && m.objects == a.objects && SealedAlone(m, b, s, done)
    ensures SealedAlone(a, b, s, done)
  {
    hide RowsSealed, OthersSame;
  }

  /** Batches that were not being sealed stay as they are, with their chunks, staging files and objects. */
  ghost predicate SparesSettled(a: State, b: State) {
    b.batches.Keys == a.batches.Keys
    && (forall id :: id in a.batches && !a.batches[id].stage.Sealing? ==> b.batches[id] == a.batches[id])
    && (forall h :: h in a.chunks && !BeingSealed(a.batches, a.chunks[h].batch) ==>
          h in b.chunks && b.chunks[h] == a.chunks[h])
    && (forall h :: h in b.chunks ==> h in a.chunks && b.chunks[h].batch == a.chunks[h].batch)
    && (forall id :: id in a.objects && !BeingSealed(a.batches, id) ==>
          id in b.objects && b.objects[id] == a.objects[id])
    && (forall id :: id in a.raw && !BeingSealed(a.batches, id) ==> id in b.raw && b.raw[id] == a.raw[id])
  }

  ghost predicate BeingSealed(batches: map<BatchId, BatchRow>, id: BatchId) {
    id in batches && batches[id].stage.Sealing?
  }

  lemma SettledSame(a: State)
    ensures SparesSettled(a, a)
  {}

  lemma SettledNext(a: State, b: State, c: State, s: BatchId, done: bool)
    requires SparesSettled(a, b) && SealedAlone(b, c, s, done) && s in a.batches && a.batches[s].stage.Sealing?
    requires forall id :: id != s ==>
               (id in c.batches <==> id in b.batches) && (id in c.batches ==> c.batches[id] == b.batches[id])
    requires c.batches.Keys == b.batches.Keys
    requires forall id :: id != s ==> (id in c.raw <==> id in b.raw) && (id in c.raw ==> c.raw[id] == b.raw[id])
    ensures SparesSettled(a, c)
  {
    OthersKeep(b.objects, c.objects, s);
    hide OthersSame;
  }

  lemma OthersKeep(a: map<BatchId, Vec>, b: map<BatchId, Vec>, s: BatchId)
    requires OthersSame(a, b, s)
    ensures forall id :: id != s && id in a ==> id in b && b[id] == a[id]
  {
    forall id | id != s && id in a
      ensures id in b && b[id] == a[id]
    {
      assert id in (a - {s}) && id in (b - {s});
      assert (a - {s})[id] == (b - {s})[id];
    }
  }

  // ---------------------------------------------------------------- compacting

  /** Live bytes are less than this share of the raw bytes. */
  predicate Wasteful(row: BatchRow, ratio: real) {
    row.rawBytes > 0 && row.liveBytes as real / row.rawBytes as real < ratio
  }

  /** The first k chunks of the order lie in t's staging file where moved says. */
  ghost predicate Moved(st: State, t: BatchId, order: seq<Hash>, k: nat, moved: map<Hash, nat>) {
    k <= |order| && t in st.raw
    && forall j :: 0 <= j < k ==>
         order[j] in moved && order[j] in st.bytes && InRaw(st.raw[t], moved[order[j]], st.bytes[order[j]])
  }

  function SizesOf(chunks: map<Hash, ChunkRow>, order: seq<Hash>, k: nat): nat
    requires k <= |order| && forall j :: 0 <= j < |order| ==> order[j] in chunks
  {
    if k == 0 then 0 else SizesOf(chunks, order, k - 1) + chunks[order[k - 1]].size
  }

  lemma NothingMoved(st: State, t: BatchId, order: seq<Hash>)
    ensures t in st.raw ==> Moved(st, t, order, 0, map[])
    ensures (forall j :: 0 <= j < |order| ==> order[j] in st.chunks) ==> SizesOf(st.chunks, order, 0) == 0
  {}

  lemma SizesNext(chunks: map<Hash, ChunkRow>, order: seq<Hash>, k: nat)
    requires k < |order| && forall j :: 0 <= j < |order| ==> order[j] in chunks
    ensures SizesOf(chunks, order, k + 1) == SizesOf(chunks, order, k) + chunks[order[k]].size
  {}

  lemma MovedNext(a: State, b: State, t: BatchId, order: seq<Hash>, k: nat, moved: map<Hash, nat>, h: Hash, data: Vec)
    requires Moved(a, t, order, k, moved) && k < |order| && order[k] == h
    requires t in a.raw && t in b.raw && b.raw[t] == a.raw[t] + data && b.bytes == a.bytes && h in a.bytes
             && a.bytes[h] == data
    ensures Moved(b, t, order, k + 1, moved[h := |a.raw[t]|])
  {
    hide InRaw;
    RawEnd(a.raw[t], data);
    forall j | 0 <= j < k
      ensures InRaw(b.raw[t], moved[order[j]], b.bytes[order[j]])
    {
      RawGrows(a.raw[t], b.raw[t], moved[order[j]], a.bytes[order[j]]);
    }
  }

  lemma {:induction false} SizesAreSum(chunks: map<Hash, ChunkRow>, order: seq<Hash>, s: set<Hash>)
    requires Ordered(order, s) && s <= chunks.Keys && forall j :: 0 <= j < |order| ==> order[j] in chunks
    ensures SizesOf(chunks, order, |order|) == SizeSum(chunks, s)
    decreases |order|
  {
    if order == [] {
      OrderedIn(order, s);
      assert s == {};
    } else {
      var n := |order| - 1;
      var h := order[n];
      assert h in order;
      OrderedLess(order, s);
      SizesAreSum(chunks, order[..n], s - {h});
      SizesPrefix(chunks, order, n, n);
      SizeSumPick(chunks, s, h);
    }
  }

  lemma {:induction false} SizesPrefix(chunks: map<Hash, ChunkRow>, order: seq<Hash>, n: nat, k: nat)
    requires k <= n <= |order| && forall j :: 0 <= j < |order| ==> order[j] in chunks
    ensures SizesOf(chunks, order[..n], k) == SizesOf(chunks, order, k)
  {
    if k != 0 {
      SizesPrefix(chunks, order, n, k - 1);
    }
  }

  lemma CompactReady(st: State, z: Zip, hash: Vec -> Hash, v: BatchId, t: BatchId, order: seq<Hash>,
                     moved: map<Hash, nat>,
                     total: nat)
    requires v in st.batches && t in st.batches && v != t && st.batches[t].stage.Open?
    requires Ordered(order, LiveIn(st.chunks, v)) && (forall j :: 0 <= j < |order| ==> order[j] in st.chunks)
    requires Moved(st, t, order, |order|, moved) && total == SizesOf(st.chunks, order, |order|)
    ensures CanCompact(st, v, t, moved, total)
  {
    hide InRaw, SizeSum, LiveIn, SizesOf;
    SizesAreSum(st.chunks, order, LiveIn(st.chunks, v));
    OrderedIn(order, LiveIn(st.chunks, v));
    hide Ordered;
    forall h | h in LiveIn(st.chunks, v) && h in st.bytes
      ensures h in moved && InRaw(st.raw[t], moved[h], st.bytes[h])
    {
      var j :| 0 <= j < |order| && order[j] == h;
    }
  }

  /** Batch v is deleted, batch t is open, and no other batch changes. */
  ghost predicate Switched(a: map<BatchId, BatchRow>, b: map<BatchId, BatchRow>, v: BatchId, t: BatchId) {
    v in a && t in a && v in b && t in b && v != t && a[t].stage.Open? && b[t].stage.Open? && b[v].stage.Deleted?
    && b.Keys == a.Keys && forall id :: id in a && id != v && id != t ==> b[id] == a[id]
  }

  lemma SwitchedParts(a: map<BatchId, BatchRow>, b: map<BatchId, BatchRow>, v: BatchId, t: BatchId)
    requires Switched(a, b, v, t)
    ensures v in b && b[v].stage.Deleted? && v != t && t in a && a[t].stage.Open? && t in b && b[t].stage.Open?
    ensures b.Keys == a.Keys && forall id :: id in a && id != v && id != t ==> b[id] == a[id]
  {}

  /** The batches that a compaction rewrites. */
  ghost function Victims(batches: map<BatchId, BatchRow>, ratio: real): set<BatchId> {
    set b | b in batches && batches[b].stage.Sealed? && Wasteful(batches[b], ratio)
  }

  /** A batch is wasteful if and only if it has chunks and the live ones have less than this share of the bytes. */
  lemma WastefulMeans(st: State, z: Zip, hash: Vec -> Hash, b: BatchId, ratio: real)
    requires Consistent(st, z, hash) && b in st.batches && !st.batches[b].stage.Deleted?
    ensures Wasteful(st.batches[b], ratio)
            <==> ChunksIn(st.chunks, b) != {}
                 && SizeSum(st.chunks, LiveIn(st.chunks, b)) as real
                    < ratio * SizeSum(st.chunks, ChunksIn(st.chunks, b)) as real
  {
    hide *;
    BytesAre(st, z, hash, b);
    RawPositive(st, z, hash, b);
    WastefulIs(st.batches[b], ratio);
  }

  lemma WastefulIs(row: BatchRow, ratio: real)
    ensures Wasteful(row, ratio) <==> row.rawBytes > 0 && row.liveBytes as real < ratio * row.rawBytes as real
  {
    if row.rawBytes > 0 {
      ShareBelow(row.liveBytes as real, row.rawBytes as real, ratio);
    }
  }

  lemma RawPositive(st: State, z: Zip, hash: Vec -> Hash, b: BatchId)
    requires Consistent(st, z, hash)
    ensures SizeSum(st.chunks, ChunksIn(st.chunks, b)) > 0 <==> ChunksIn(st.chunks, b) != {}
  {
    hide Consistent, SizeSum;
    if ChunksIn(st.chunks, b) != {} {
      var h :| h in ChunksIn(st.chunks, b);
      ChunkPositive(st, z, hash, h);
      SizeSumPick(st.chunks, ChunksIn(st.chunks, b), h);
    } else {
      NoSize(st.chunks);
    }
  }

  lemma BytesAre(st: State, z: Zip, hash: Vec -> Hash, b: BatchId)
    requires Consistent(st, z, hash) && b in st.batches && !st.batches[b].stage.Deleted?
    ensures st.batches[b].liveBytes == SizeSum(st.chunks, LiveIn(st.chunks, b))
    ensures st.batches[b].rawBytes == SizeSum(st.chunks, ChunksIn(st.chunks, b))
  {
    hide ChunkOk, CountsOk, ListsOk, SizeSum;
    assert BytesOk(st, b);
  }

  lemma NoSize(chunks: map<Hash, ChunkRow>)
    ensures SizeSum(chunks, {}) == 0
  {}

  lemma ChunkPositive(st: State, z: Zip, hash: Vec -> Hash, h: Hash)
    requires Consistent(st, z, hash) && h in st.chunks
    ensures st.chunks[h].size > 0
  {
    assert ChunkOk(st, z, hash, h);
  }

  lemma ShareBelow(x: real, y: real, ratio: real)
    requires y > 0.0
    ensures x / y < ratio <==> x < ratio * y
  {
    assert x == x / y * y;
  }

  /** Every row but those of batch v stays. Of batch v the dead rows are gone and the live ones name batch t. */
  ghost predicate RowsMoved(a: map<Hash, ChunkRow>, b: map<Hash, ChunkRow>, v: BatchId, t: BatchId) {
    (forall h :: h in b <==> h in a && (a[h].batch == v ==> a[h].refcount > 0))
    && forall h :: h in b ==> b[h] == if a[h].batch == v then a[h].(batch := t, offset := b[h].offset) else a[h]
  }

  /** The tables were switched over; no batch but v and the open one changed, and the staging file of that one has
      grown by as many bytes as v had live ones. */
  ghost predicate SwitchedOver(a: State, b: State, v: BatchId, t: BatchId) {
    FirstOpen(a.batches, t) && t in b.batches && b.batches[t].stage.Open?
    && v in b.batches && b.batches[v].stage.Deleted?
    && (forall id :: id in b.batches <==> id in a.batches || id == t)
    && (forall id :: id in a.batches && id != v && id != t ==> b.batches[id] == a.batches[id])
    && RowsMoved(a.chunks, b.chunks, v, t) && t in b.raw && b.raw == a.raw[t := b.raw[t]]
    && FileOf(a.raw, t) <= b.raw[t]
    && |b.raw[t]| == |FileOf(a.raw, t)| + SizeSum(a.chunks, LiveIn(a.chunks, v))
  }

  ghost predicate Compacted(a: State, b: State, v: BatchId, t: BatchId) {
    SwitchedOver(a, b, v, t) && b.objects == a.objects - {v}
  }

  /** A compaction of batch v stopped, before the tables were switched over or just after. */
  ghost predicate PartlyCompacted(a: State, b: State, v: BatchId, t: BatchId) {
    b.objects == a.objects
    && (SwitchedOver(a, b, v, t)
        || (b.chunks == a.chunks && FirstOpen(a.batches, t) && b.batches == WithOpen(a.batches, t)
            && t in b.raw && b.raw == a.raw[t := b.raw[t]] && FileOf(a.raw, t) <= b.raw[t]))
  }

  lemma Opened(batches: map<BatchId, BatchRow>, v: BatchId, t: BatchId)
    requires FirstOpen(batches, t) && v in batches && batches[v].stage.Sealed?
    ensures t != v && t in WithOpen(batches, t) && WithOpen(batches, t)[t].stage.Open?
    ensures v in WithOpen(batches, t) && WithOpen(batches, t)[v] == batches[v]
  {}

  lemma NothingCompacted(a: State, b: State, v: BatchId, t: BatchId)
    requires b.objects == a.objects && b.chunks == a.chunks && FirstOpen(a.batches, t)
    requires b.batches == WithOpen(a.batches, t)
    requires t in b.raw && b.raw == a.raw[t := FileOf(a.raw, t)][t := b.raw[t]] && FileOf(a.raw, t) <= b.raw[t]
    ensures PartlyCompacted(a, b, v, t)
  {
    hide FirstOpen, WithOpen;
  }

  lemma ReadyParts(st: State, v: BatchId, t: BatchId, moved: map<Hash, nat>, total: nat)
    requires CanCompact(st, v, t, moved, total)
    ensures total == SizeSum(st.chunks, LiveIn(st.chunks, v))
  {
    hide InRaw, SizeSum;
  }

  lemma RowsAreMoved(a: State, z: Zip, hash: Vec -> Hash, v: BatchId, t: BatchId, moved: map<Hash, nat>, total: nat)
    requires CanCompact(a, v, t, moved, total) && Consistent(a, z, hash)
    ensures RowsMoved(a.chunks, MovedChunks(a.chunks, v, t, moved), v, t)
  {
    hide *;
    BytesKnown(a, z, hash);
    MovedOffsets(a, v, t, moved, total);
    RowsMovedBy(a.chunks, v, t, moved);
  }

  lemma MovedOffsets(a: State, v: BatchId, t: BatchId, moved: map<Hash, nat>, total: nat)
    requires CanCompact(a, v, t, moved, total)
    ensures forall h :: h in LiveIn(a.chunks, v) && h in a.bytes ==> h in moved
  {
    hide InRaw, SizeSum, LiveIn;
  }

  lemma RowsMovedBy(chunks: map<Hash, ChunkRow>, v: BatchId, t: BatchId, moved: map<Hash, nat>)
    requires forall h :: h in LiveIn(chunks, v) ==> h in moved
    ensures RowsMoved(chunks, MovedChunks(chunks, v, t, moved), v, t)
  {
    assert forall h :: h in LiveIn(chunks, v) <==> h in chunks && chunks[h].batch == v && chunks[h].refcount > 0;
    hide LiveIn;
  }

  lemma CompactIs(st: State, v: BatchId, t: BatchId, moved: map<Hash, nat>, total: nat)
    requires v in st.batches && t in st.batches && CanCompact(st, v, t, moved, total)
    ensures Switched(st.batches, CompactCommit(st, v, t, moved, total).batches, v, t)
    ensures CompactCommit(st, v, t, moved, total)
            == st.(chunks := MovedChunks(st.chunks, v, t, moved),
                   batches := st.batches[t := st.batches[t].(rawBytes := st.batches[t].rawBytes + total,
                                                             liveBytes := st.batches[t].liveBytes + total)]
                                        [v := st.batches[v].(stage := Deleted, liveBytes := 0, frames := [])])
    ensures MovedChunks(st.chunks, v, t, moved).Keys <= st.chunks.Keys
  {
    hide SizeSum, InRaw;
  }

  lemma CompactedNow(a: State, m: State, b: State, v: BatchId, t: BatchId, moved: map<Hash, nat>, total: nat)
    requires FirstOpen(a.batches, t) && m.batches == WithOpen(a.batches, t) && v in a.batches && v != t
    requires m.chunks == a.chunks && m.objects == a.objects && t in m.raw
    requires m.raw == a.raw[t := FileOf(a.raw, t)][t := m.raw[t]] && FileOf(a.raw, t) <= m.raw[t]
    requires |m.raw[t]| == |FileOf(a.raw, t)| + total && total == SizeSum(m.chunks, LiveIn(m.chunks, v))
    requires Switched(m.batches, b.batches, v, t) && RowsMoved(m.chunks, b.chunks, v, t) && b.raw == m.raw
    ensures b.objects == a.objects ==> PartlyCompacted(a, b, v, t)
    ensures b.objects == a.objects - {v} ==> Compacted(a, b, v, t)
  {
    hide FirstOpen, RowsMoved, SizeSum, LiveIn;
    assert SwitchedOver(a, b, v, t);
    hide SwitchedOver;
  }

  // ---------------------------------------------------------------- compacting batch after batch

  /** Of the victims those done are deleted and their objects gone, the others as they were. Of all other batches only
      open ones change, and their chunks stay where they are. */
  ghost predicate Compacting(a: State, b: State, victims: set<BatchId>, done: set<BatchId>) {
    SparesOthers(a, b, victims)
    && (forall v :: v in victims ==> v in a.batches && a.batches[v].stage.Sealed?)
    && (forall v :: v in victims - done ==> v in b.batches && b.batches[v] == a.batches[v])
    && forall v :: v in done ==> v in victims && v in b.batches && b.batches[v].stage.Deleted? && v !in b.objects
  }

  /** No other sealed batch changes, nor its chunks, dead or alive, nor its object. */
  ghost predicate SparesOthers(a: State, b: State, victims: set<BatchId>) {
    (forall id :: id in a.batches ==> id in b.batches)
    && (forall id :: id in a.batches && id !in victims && !a.batches[id].stage.Open? ==> b.batches[id] == a.batches[id])
    && (forall id :: id in b.batches && b.batches[id].stage.Sealed? ==>
          id in a.batches && b.batches[id] == a.batches[id])
    && (forall v :: v in victims && v in a.batches ==>
          v in b.batches && (b.batches[v].stage.Deleted? || b.batches[v] == a.batches[v]))
    && (forall h :: h in a.chunks && a.chunks[h].batch !in victims ==> h in b.chunks && b.chunks[h] == a.chunks[h])
    && (forall id :: id in a.objects && id !in victims ==> id in b.objects && b.objects[id] == a.objects[id])
  }

  lemma VictimsAre(batches: map<BatchId, BatchRow>, ratio: real, victims: set<BatchId>)
    requires victims == set b | b in batches && batches[b].stage.Sealed? && Wasteful(batches[b], ratio)
    ensures victims == Victims(batches, ratio)
    ensures forall v :: v in victims ==> v in batches && batches[v].stage.Sealed?
  {
    hide Wasteful;
  }

  lemma CompactingStart(a: State, victims: set<BatchId>)
    requires forall v :: v in victims ==> v in a.batches && a.batches[v].stage.Sealed?
    ensures Compacting(a, a, victims, {})
  {}

  lemma StillSealed(a: State, b: State, victims: set<BatchId>, done: set<BatchId>, v: BatchId)
    requires Compacting(a, b, victims, done) && v in victims - done
    ensures v in b.batches && b.batches[v].stage.Sealed?
  {
    hide SparesOthers;
  }

  lemma CompactingNext(a: State, b: State, c: State, victims: set<BatchId>, done: set<BatchId>, v: BatchId, t: BatchId)
    requires Compacting(a, b, victims, done) && v in victims - done && Compacted(b, c, v, t)
    ensures Compacting(a, c, victims, done + {v})
  {
    hide *;
    CompactedParts(b, c, v, t);
    SparesNext(a, b, c, victims, done, v, t);
    VictimsNext(a, b, c, victims, done, v, t);
  }

  lemma CompactedParts(a: State, b: State, v: BatchId, t: BatchId)
    requires Compacted(a, b, v, t)
    ensures SwitchedOver(a, b, v, t) && b.objects == a.objects - {v}
  {
    hide SwitchedOver;
  }

  lemma SparesNext(a: State, b: State, c: State, victims: set<BatchId>, done: set<BatchId>, v: BatchId, t: BatchId)
    requires Compacting(a, b, victims, done) && v in victims - done && SwitchedOver(b, c, v, t)
    requires c.objects == b.objects || c.objects == b.objects - {v}
    ensures SparesOthers(a, c, victims)
  {
    hide SizeSum, LiveIn, FileOf;
  }

  lemma VictimsNext(a: State, b: State, c: State, victims: set<BatchId>, done: set<BatchId>, v: BatchId, t: BatchId)
    requires Compacting(a, b, victims, done) && v in victims - done && SwitchedOver(b, c, v, t)
    requires c.objects == b.objects - {v} && SparesOthers(a, c, victims)
    ensures Compacting(a, c, victims, done + {v})
  {
    hide SparesOthers, RowsMoved, SizeSum, LiveIn, FileOf;
  }

  lemma CompactingHalts(a: State, b: State, c: State, victims: set<BatchId>, done: set<BatchId>, v: BatchId, t: BatchId)
    requires Compacting(a, b, victims, done) && v in victims - done && PartlyCompacted(b, c, v, t)
    ensures SparesOthers(a, c, victims)
    ensures forall v :: v in done ==> v in c.batches && c.batches[v].stage.Deleted? && v !in c.objects
  {
    if SwitchedOver(b, c, v, t) {
      SparesNext(a, b, c, victims, done, v, t);
    }
    hide RowsMoved, SizeSum, LiveIn, FileOf;
  }

  lemma CompactingEnds(a: State, b: State, victims: set<BatchId>, done: set<BatchId>, ratio: real)
    requires Compacting(a, b, victims, done) && done == victims == Victims(a.batches, ratio)
    ensures SparesOthers(a, b, victims)
    ensures forall v :: v in done ==> v in b.batches && b.batches[v].stage.Deleted? && v !in b.objects
    ensures forall id :: id in b.batches && b.batches[id].stage.Sealed? ==> !Wasteful(b.batches[id], ratio)
  {
    hide Wasteful;
  }

  function FramesOf(frames: map<(BatchId, nat), Vec>, v: BatchId): set<(BatchId, nat)> {
    set key | key in frames && key.0 == v
  }

  /** What is cached of the other batches stays right. */
  lemma ForgetBatch(a: State, b: State, z: Zip, frames: map<(BatchId, nat), Vec>, dicts: map<BatchId, Vec>, v: BatchId,
                    t: BatchId)
    requires CachesOk(a, z, frames, dicts) && t in a.batches && a.batches[t].stage.Open?
    requires forall id :: id in a.batches && id != v && id != t ==> id in b.batches && b.batches[id] == a.batches[id]
    requires forall id :: id in a.objects && id != v ==> id in b.objects && b.objects[id] == a.objects[id]
    ensures CachesOk(b, z, frames - FramesOf(frames, v), dicts - {v})
  {
    hide Plain, DictOf;
    forall key | key in frames && key.0 != v
      ensures FrameCached(b, z, key.0, key.1, frames[key])
    {
      PlainSame(z, a.batches[key.0], b.batches[key.0], a.objects[key.0], key.1);
    }
  }

  lemma NoCaches(st: State, z: Zip)
    ensures CachesOk(st, z, map[], map[])
  {}

  lemma IndexDigests(st: State, z: Zip, hash: Vec -> Hash)
    requires Consistent(st, z, hash) && Assumptions(hash, z)
    ensures forall h :: h in st.chunks.Keys ==> |h| >= 16
  {
    hide Located, NoCollisions, Inverse, CountsOk, ListsOk;
    forall h | h in st.chunks.Keys
      ensures |h| >= 16
    {
      assert ChunkOk(st, z, hash, h);
      assert |hash(st.bytes[h])| == HASH_SIZE;
    }
  }

  lemma NoJoin()
    ensures var none: seq<Vec> := []; Sequences.Join(none) == []
  {}

  /** The new chunks outside rest have their rows. */
  ghost predicate Inserting(start: State, cur: State, z: Zip, hash: Vec -> Hash, b: BatchId, added: map<Hash, Spot>,
                            stored: map<Hash, Vec>, rest: set<Hash>)
  {
    Consistent(cur, z, hash) && SameFiles(start, cur) && SealedKept(start, cur)
    && cur.lists == start.lists && cur.refs == start.refs && cur.raw == start.raw
    && cur.chunks.Keys == start.chunks.Keys + (added.Keys - rest) && rest <= added.Keys
    && b in cur.batches && cur.batches[b].stage.Open?
  }

  lemma InsertsStart(st: State, z: Zip, hash: Vec -> Hash, b: BatchId, added: map<Hash, Spot>, stored: map<Hash, Vec>)
    requires Consistent(st, z, hash) && b in st.batches && st.batches[b].stage.Open?
    ensures Inserting(st, st, z, hash, b, added, stored, added.Keys)
  {
    SameFilesSelf(st);
    hide Consistent, SameFiles;
  }

  lemma InsertParts(start: State, cur: State, z: Zip, hash: Vec -> Hash, b: BatchId, added: map<Hash, Spot>,
                    stored: map<Hash, Vec>, rest: set<Hash>)
    requires Inserting(start, cur, z, hash, b, added, stored, rest)
    ensures Consistent(cur, z, hash) && SameFiles(start, cur) && SealedKept(start, cur)
    ensures cur.lists == start.lists && cur.refs == start.refs && cur.raw == start.raw && cur.objects == start.objects
    ensures cur.chunks.Keys == start.chunks.Keys + (added.Keys - rest) && b in cur.batches
    ensures rest == {} ==> cur.chunks.Keys == start.chunks.Keys + added.Keys
  {
    hide Consistent, SameFiles;
  }

  lemma InsertIs(st: State, h: Hash, b: BatchId, offset: nat, data: Vec)
    requires b in st.batches
    ensures InsertChunk(st, h, b, offset, data)
            == st.(chunks := st.chunks[h := ChunkRow(|data|, b, offset, 0)], bytes := st.bytes[h := data],
                   batches := st.batches[b := st.batches[b].(rawBytes := st.batches[b].rawBytes + |data|)])
  {}

  lemma InsertNext(start: State, cur: State, z: Zip, hash: Vec -> Hash, b: BatchId, added: map<Hash, Spot>,
                   stored: map<Hash, Vec>, rest: set<Hash>, h: Hash, pieces: seq<Vec>, hashes: seq<Hash>)
    requires Inserting(start, cur, z, hash, b, added, stored, rest) && h in rest && b in start.raw
    requires Staged(start.chunks.Keys, start.raw[b], hash, pieces, hashes, added, stored)
    ensures h in stored && b in cur.batches
    ensures Inserting(start, InsertChunk(cur, h, b, added[h].offset, stored[h]), z, hash, b, added, stored, rest - {h})
  {
    hide InRaw, Consistent, SameFiles;
    assert CanInsert(cur, hash, h, b, added[h].offset, stored[h]);
    InsertStep(cur, z, hash, h, b, added[h].offset, stored[h]);
    hide Staged, CanInsert;
    SameFilesTrans(start, cur, InsertChunk(cur, h, b, added[h].offset, stored[h]));
  }

  /** A chunk that still has to be inserted has no row. */
  lemma InsertNew(start: State, cur: State, z: Zip, hash: Vec -> Hash, b: BatchId, added: map<Hash, Spot>,
                  stored: map<Hash, Vec>, rest: set<Hash>, h: Hash, pieces: seq<Vec>, hashes: seq<Hash>)
    requires Inserting(start, cur, z, hash, b, added, stored, rest) && h in rest && b in start.raw
    requires Staged(start.chunks.Keys, start.raw[b], hash, pieces, hashes, added, stored)
    ensures h !in cur.chunks && b in cur.batches && cur.batches[b].stage.Open?
  {
    hide InRaw, Consistent, SameFiles, SealedKept;
    assert h in added;
  }

  /** The first i pieces of file f are referred to. */
  ghost predicate Referring(start: State, cur: State, z: Zip, hash: Vec -> Hash, f: FileId, pieces: seq<Vec>, i: nat) {
    Consistent(cur, z, hash) && OtherFiles(start, cur, f) && SealedKept(start, cur)
    && f in cur.lists && cur.lists[f] == Digests(hash, pieces) && |pieces| == i
    && Holds(cur, f, Sequences.Join(pieces))
  }

  lemma ReferringParts(start: State, cur: State, z: Zip, hash: Vec -> Hash, f: FileId, pieces: seq<Vec>, i: nat)
    requires Referring(start, cur, z, hash, f, pieces, i)
    ensures Consistent(cur, z, hash) && OtherFiles(start, cur, f) && SealedKept(start, cur)
    ensures f in cur.lists && cur.lists[f] == Digests(hash, pieces) && |cur.lists[f]| == i
    ensures Holds(cur, f, Sequences.Join(pieces))
    ensures forall h :: h in cur.chunks ==> cur.chunks[h].batch in cur.batches
  {
    hide OtherFiles, Holds, SealedKept, CountsOk, ListsOk;
    forall h | h in cur.chunks
      ensures cur.chunks[h].batch in cur.batches
    {
      BatchOf(cur, z, hash, h);
    }
  }

  lemma AddRefIs(st: State, f: FileId, h: Hash)
    requires f in st.lists && h in st.chunks && st.chunks[h].batch in st.batches
    ensures var n := AddRef(st, f, h); var c := st.chunks[h];
            n.chunks == st.chunks[h := c.(refcount := c.refcount + 1)] && n.refs == st.refs[Ref(f, |st.lists[f]|) := h]
            && n.batches == (if c.refcount == 0 then
                               st.batches[c.batch := st.batches[c.batch].(liveBytes :=
                                 st.batches[c.batch].liveBytes + c.size)]
                             else st.batches)
            && n.raw == st.raw && n.objects == st.objects && n.lists == st.lists[f := st.lists[f] + [h]]
    ensures SealedKept(st, AddRef(st, f, h))
  {}

  lemma OtherTrans(a: State, b: State, c: State, f: FileId)
    requires OtherFiles(a, b, f) && OtherFiles(b, c, f)
    ensures OtherFiles(a, c, f)
  {
    hide Holds;
  }

  lemma ReferringNext(start: State, cur: State, z: Zip, hash: Vec -> Hash, f: FileId, pieces: seq<Vec>, i: nat, h: Hash,
                      piece: Vec)
    requires Referring(start, cur, z, hash, f, pieces, i) && h in cur.chunks && h == hash(piece) && NoCollisions(hash)
    ensures f in cur.lists && cur.chunks[h].batch in cur.batches
    ensures Referring(start, AddRef(cur, f, h), z, hash, f, pieces + [piece], i + 1)
  {
    hide *;
    ReferringParts(start, cur, z, hash, f, pieces, i);
    AddRefStep(cur, z, hash, f, h, Sequences.Join(pieces));
    SamePiece(cur, z, hash, h, piece);
    Sequences.JoinSnoc(pieces, piece);
    DigestsNext(hash, pieces, piece);
    AddRefIs(cur, f, h);
    OtherTrans(start, cur, AddRef(cur, f, h), f);
    SealedKeptTrans(start, cur, AddRef(cur, f, h));
    ReferringMade(start, AddRef(cur, f, h), z, hash, f, pieces + [piece], i + 1);
  }

  lemma ReferringMade(start: State, cur: State, z: Zip, hash: Vec -> Hash, f: FileId, pieces: seq<Vec>, i: nat)
    requires Consistent(cur, z, hash) && OtherFiles(start, cur, f) && SealedKept(start, cur)
    requires f in cur.lists && cur.lists[f] == Digests(hash, pieces) && |pieces| == i
    requires Holds(cur, f, Sequences.Join(pieces))
    ensures Referring(start, cur, z, hash, f, pieces, i)
  {
    hide Consistent, OtherFiles, SealedKept, Holds;
  }

  /** Without collisions the stored chunk is the piece. */
  lemma SamePiece(st: State, z: Zip, hash: Vec -> Hash, h: Hash, piece: Vec)
    requires Consistent(st, z, hash) && h in st.chunks && h == hash(piece) && NoCollisions(hash)
    ensures h in st.bytes && st.bytes[h] == piece
  {
    assert ChunkOk(st, z, hash, h);
    hide Located, CountsOk, ListsOk, BytesOk;
  }

  lemma DictParts(st: State, z: Zip, frames: map<(BatchId, nat), Vec>, dicts: map<BatchId, Vec>, b: BatchId)
    requires CachesOk(st, z, frames, dicts) && b in st.batches && st.batches[b].stage.Sealed? && b in st.objects
    ensures b in dicts ==> dicts[b] == DictOf(st.batches[b], st.objects[b])
    ensures Part(st.objects[b], 0, st.batches[b].dictLen) == DictOf(st.batches[b], st.objects[b])
    ensures CachesOk(st, z, frames, dicts[b := DictOf(st.batches[b], st.objects[b])])
  {
    hide Plain;
  }

  lemma FrameParts(st: State, z: Zip, frames: map<(BatchId, nat), Vec>, dicts: map<BatchId, Vec>, b: BatchId, i: nat)
    requires CachesOk(st, z, frames, dicts) && b in st.batches && st.batches[b].stage.Sealed? && b in st.objects
    requires i < |st.batches[b].frames|
    ensures (b, i) in frames ==> frames[(b, i)] == Plain(z, st.batches[b], st.objects[b], i)
    ensures CachesOk(st, z, frames[(b, i) := Plain(z, st.batches[b], st.objects[b], i)], dicts)
  {
    hide Plain, DictOf;
  }

  lemma FramesEvicted(st: State, z: Zip, frames: map<(BatchId, nat), Vec>, dicts: map<BatchId, Vec>,
                      keys: set<(BatchId, nat)>)
    requires CachesOk(st, z, frames, dicts)
    ensures CachesOk(st, z, frames - keys, dicts)
  {
    hide FrameCached, DictCached;
  }

  lemma DictsEvicted(st: State, z: Zip, frames: map<(BatchId, nat), Vec>, dicts: map<BatchId, Vec>, ids: set<BatchId>)
    requires CachesOk(st, z, frames, dicts)
    ensures CachesOk(st, z, frames, dicts - ids)
  {
    hide FrameCached, DictCached;
  }

  lemma NothingStored(z: Zip, hash: Vec -> Hash)
    ensures Consistent(State(map[], map[], map[], map[], map[], map[], map[]), z, hash)
    ensures CachesOk(State(map[], map[], map[], map[], map[], map[], map[]), z, map[], map[])
  {
    hide ChunkOk, BytesOk, FrameCached, DictCached;
  }

  lemma PlainIs(z: Zip, row: BatchRow, blob: Vec, i: nat)
    requires i < |row.frames|
    ensures Plain(z, row, blob, i)
            == z.decompress(DictOf(row, blob), Part(blob, row.frames[i].compOffset, row.frames[i].compLen))
  {}

  lemma CutOut(z: Zip, row: BatchRow, blob: Vec, offset: nat, data: Vec, i: nat)
    requires InFrame(z, row, blob, offset, data, i)
    ensures i < |row.frames| && row.frames[i].rawStart <= offset
    ensures data == Part(Plain(z, row, blob, i), offset - row.frames[i].rawStart, |data|)
  {
    hide Plain;
  }

  /** Where a chunk's bytes are. */
  lemma PlaceOf(st: State, z: Zip, hash: Vec -> Hash, h: Hash)
    requires ChunkOk(st, z, hash, h)
    ensures var c := st.chunks[h];
            h in st.bytes && |st.bytes[h]| == c.size && hash(st.bytes[h]) == h && c.batch in st.batches
            && (if st.batches[c.batch].stage.Open? || st.batches[c.batch].stage.Sealing? then
                  c.batch in st.raw && Part(st.raw[c.batch], c.offset, c.size) == st.bytes[h]
                else
                  st.batches[c.batch].stage.Sealed? && c.batch in st.objects
                  && InSomeFrame(z, st.batches[c.batch], st.objects[c.batch], c.offset, st.bytes[h]))
  {
    hide InSomeFrame;
  }

  lemma FileParts(st: State, z: Zip, hash: Vec -> Hash, f: FileId)
    requires Consistent(st, z, hash)
    ensures forall i: nat :: Ref(f, i) in st.refs <==> f in st.lists && i < |st.lists[f]|
    ensures forall i: nat :: Ref(f, i) in st.refs ==> st.refs[Ref(f, i)] == st.lists[f][i]
    ensures f in st.lists ==> forall i :: 0 <= i < |st.lists[f]| ==>
              st.lists[f][i] in st.chunks && st.lists[f][i] in st.bytes
    ensures forall data :: Holds(st, f, data) ==>
              f in st.lists && (forall i :: 0 <= i < |st.lists[f]| ==> st.lists[f][i] in st.bytes)
              && data == Contents(st.lists[f], st.bytes)
  {
    if f in st.lists {
      ListedHeld(st, z, hash, f);
    }
    assert ListsOk(st);
    hide Consistent;
  }

  lemma NoContents(bytes: map<Hash, Vec>)
    ensures Contents([], bytes) == []
  {}

  lemma ContentsNext(list: seq<Hash>, i: nat, bytes: map<Hash, Vec>)
    requires i < |list| && forall j :: 0 <= j < |list| ==> list[j] in bytes
    ensures Contents(list[..i + 1], bytes) == Contents(list[..i], bytes) + bytes[list[i]]
  {
    assert list[..i + 1][..i] == list[..i];
  }
}
