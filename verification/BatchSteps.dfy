/** The dedup tier's atomic steps and what they keep. */
module BatchSteps {
  import opened LinearAlgebra
  import opened BatchState

  // ---------------------------------------------------------------- framing

  /** Everything that locating the chunks of batch b depends on is the same, or its staging file grew. */
  ghost predicate SamePlace(a: State, b: State, id: BatchId) {
    id in a.batches && id in b.batches
    && b.batches[id].stage == a.batches[id].stage && b.batches[id].dictLen == a.batches[id].dictLen
    && b.batches[id].frames == a.batches[id].frames
    && (id in a.raw && (a.batches[id].stage.Open? || a.batches[id].stage.Sealing?) ==>
          id in b.raw && a.raw[id] <= b.raw[id])
    && (id in a.objects && a.batches[id].stage.Sealed? ==> id in b.objects && b.objects[id] == a.objects[id])
  }

  lemma RawGrows(file: Vec, more: Vec, offset: nat, data: Vec)
    requires InRaw(file, offset, data) && file <= more
    ensures InRaw(more, offset, data)
  {
    assert more[offset..offset + |data|] == file[offset..offset + |data|];
  }

  lemma FrameKept(z: Zip, a: BatchRow, b: BatchRow, blob: Vec, offset: nat, data: Vec)
    requires InSomeFrame(z, a, blob, offset, data) && b.frames == a.frames && b.dictLen == a.dictLen
    ensures InSomeFrame(z, b, blob, offset, data)
  {
    var i: nat :| InFrame(z, a, blob, offset, data, i);
    assert InFrame(z, b, blob, offset, data, i);
  }

  /** A chunk whose row keeps its place in a batch that stays put stays well formed. */
  lemma ChunkKept(a: State, b: State, z: Zip, hash: Vec -> Hash, h: Hash)
    requires ChunkOk(a, z, hash, h) && SamePlace(a, b, a.chunks[h].batch)
    requires h in b.chunks && b.chunks[h] == a.chunks[h].(refcount := b.chunks[h].refcount)
    requires h in b.bytes && b.bytes[h] == a.bytes[h]
    ensures ChunkOk(b, z, hash, h)
  {
    hide InRaw, InSomeFrame;
    var c := a.chunks[h];
    match a.batches[c.batch].stage
    case Open => RawGrows(a.raw[c.batch], b.raw[c.batch], c.offset, a.bytes[h]);
    case Sealing => RawGrows(a.raw[c.batch], b.raw[c.batch], c.offset, a.bytes[h]);
    case Sealed => FrameKept(z, a.batches[c.batch], b.batches[c.batch], a.objects[c.batch], c.offset, a.bytes[h]);
    case Deleted =>
  }

  /** Steps on files alone: no table changes but for the stage of a batch that is still staged. */
  lemma PlacesKept(a: State, b: State, z: Zip, hash: Vec -> Hash)
    requires Consistent(a, z, hash)
    requires b == a.(raw := b.raw, objects := b.objects) && forall id :: id in a.batches ==> SamePlace(a, b, id)
    ensures Consistent(b, z, hash) && SameFiles(a, b)
  {
    hide SamePlace;
    forall h | h in a.chunks
      ensures ChunkOk(b, z, hash, h)
    {
      assert ChunkOk(a, z, hash, h);
      BatchOf(a, z, hash, h);
      ChunkKept(a, b, z, hash, h);
    }
    TablesSame(a, b);
    FilesKept(a, b, z, hash);
    hide ChunkOk, CountsOk, ListsOk;
  }

  lemma BatchOf(st: State, z: Zip, hash: Vec -> Hash, h: Hash)
    requires ChunkOk(st, z, hash, h)
    ensures h in st.chunks && st.chunks[h].batch in st.batches && !st.batches[st.chunks[h].batch].stage.Deleted?
    ensures h in st.bytes
  {}

  lemma TablesSame(a: State, b: State)
    requires b == a.(raw := b.raw, objects := b.objects)
    ensures CountsOk(a) <==> CountsOk(b)
    ensures ListsOk(a) <==> ListsOk(b)
    ensures forall id :: BytesOk(a, id) <==> BytesOk(b, id)
  {}

  // ---------------------------------------------------------------- staging files and objects

  function Appended(raw: map<BatchId, Vec>, b: BatchId, data: Vec): map<BatchId, Vec> {
    raw[b := (if b in raw then raw[b] else []) + data]
  }

  lemma AppendStep(st: State, z: Zip, hash: Vec -> Hash, b: BatchId, data: Vec)
    requires Consistent(st, z, hash)
    ensures Consistent(st.(raw := Appended(st.raw, b, data)), z, hash)
    ensures SameFiles(st, st.(raw := Appended(st.raw, b, data)))
  {
    hide Consistent, SameFiles;
    PlacesKept(st, st.(raw := Appended(st.raw, b, data)), z, hash);
  }

  /** The object of a batch that is not sealed may come and go. */
  lemma ObjectStep(st: State, z: Zip, hash: Vec -> Hash, b: BatchId, objects: map<BatchId, Vec>)
    requires Consistent(st, z, hash) && (b in st.batches ==> !st.batches[b].stage.Sealed?)
    requires forall id :: id != b && id in st.objects ==> id in objects && objects[id] == st.objects[id]
    ensures Consistent(st.(objects := objects), z, hash) && SameFiles(st, st.(objects := objects))
  {
    hide Consistent, SameFiles;
    PlacesKept(st, st.(objects := objects), z, hash);
  }

  /** The staging file of a batch that is sealed or deleted may go. */
  lemma UnlinkStep(st: State, z: Zip, hash: Vec -> Hash, b: BatchId)
    requires Consistent(st, z, hash) && b in st.batches && (st.batches[b].stage.Sealed? || st.batches[b].stage.Deleted?)
    ensures Consistent(st.(raw := st.raw - {b}), z, hash) && SameFiles(st, st.(raw := st.raw - {b}))
  {
    hide Consistent, SameFiles;
    PlacesKept(st, st.(raw := st.raw - {b}), z, hash);
  }

  // ---------------------------------------------------------------- batches

  const EMPTY_BATCH := BatchRow(Open, 0, 0, 0, [])

  ghost predicate ChunksOk(st: State, z: Zip, hash: Vec -> Hash) {
    forall h :: h in st.chunks ==> ChunkOk(st, z, hash, h)
  }

  ghost predicate AllBytesOk(st: State) {
    forall b :: b in st.batches ==> BytesOk(st, b)
  }

  lemma Parts(st: State, z: Zip, hash: Vec -> Hash)
    ensures Consistent(st, z, hash) <==> ChunksOk(st, z, hash) && CountsOk(st) && ListsOk(st) && AllBytesOk(st)
  {
    hide ChunkOk, CountsOk, ListsOk, BytesOk;
  }

  lemma ChunkAt(st: State, z: Zip, hash: Vec -> Hash, h: Hash)
    requires ChunksOk(st, z, hash) && h in st.chunks
    ensures ChunkOk(st, z, hash, h) && h in st.bytes
    ensures st.chunks[h].batch in st.batches && !st.batches[st.chunks[h].batch].stage.Deleted?
    ensures |st.bytes[h]| == st.chunks[h].size > 0 && hash(st.bytes[h]) == h
  {
    BatchOf(st, z, hash, h);
    hide Located;
  }

  lemma NewBatchChunks(st: State, z: Zip, hash: Vec -> Hash, b: BatchId)
    requires ChunksOk(st, z, hash) && b !in st.batches
    ensures var n := st.(batches := st.batches[b := EMPTY_BATCH]); ChunksOk(n, z, hash)
    ensures ChunksIn(st.chunks, b) == {} && LiveIn(st.chunks, b) == {}
  {
    hide ChunkOk;
    var n := st.(batches := st.batches[b := EMPTY_BATCH]);
    forall h | h in n.chunks
      ensures ChunkOk(n, z, hash, h) && n.chunks[h].batch != b
    {
      ChunkAt(st, z, hash, h);
      ChunkKept(st, n, z, hash, h);
    }
  }

  lemma NewBatchBytes(st: State, b: BatchId)
    requires AllBytesOk(st) && b !in st.batches && ChunksIn(st.chunks, b) == {} && LiveIn(st.chunks, b) == {}
    ensures AllBytesOk(st.(batches := st.batches[b := EMPTY_BATCH]))
  {
    hide ChunksIn, LiveIn;
    var n := st.(batches := st.batches[b := EMPTY_BATCH]);
    forall id | id in n.batches
      ensures BytesOk(n, id)
    {
      assert id != b ==> BytesOk(st, id);
    }
  }

  /** Counts and lists depend on the chunk and reference tables only. */
  lemma CountsSame(a: State, b: State)
    requires b.chunks == a.chunks && b.refs == a.refs && b.lists == a.lists
    ensures CountsOk(b) <==> CountsOk(a)
    ensures ListsOk(b) <==> ListsOk(a)
  {}

  lemma NewBatchStep(st: State, z: Zip, hash: Vec -> Hash, b: BatchId)
    requires Consistent(st, z, hash) && b !in st.batches
    ensures var n := st.(batches := st.batches[b := EMPTY_BATCH]); Consistent(n, z, hash) && SameFiles(st, n)
  {
    hide *;
    var n := st.(batches := st.batches[b := EMPTY_BATCH]);
    Parts(st, z, hash);
    Parts(n, z, hash);
    NewBatchChunks(st, z, hash, b);
    NewBatchBytes(st, b);
    CountsSame(st, n);
    FilesKept(st, n, z, hash);
  }

  lemma SealingChunks(st: State, z: Zip, hash: Vec -> Hash, b: BatchId)
    requires ChunksOk(st, z, hash) && b in st.batches && (st.batches[b].stage.Open? || st.batches[b].stage.Sealing?)
    ensures ChunksOk(st.(batches := st.batches[b := st.batches[b].(stage := Sealing)]), z, hash)
  {
    hide ChunkOk;
    var n := st.(batches := st.batches[b := st.batches[b].(stage := Sealing)]);
    forall h | h in n.chunks
      ensures ChunkOk(n, z, hash, h)
    {
      ChunkAt(st, z, hash, h);
      if st.chunks[h].batch == b {
        SealingChunk(st, n, z, hash, b, h);
      } else {
        ChunkKept(st, n, z, hash, h);
      }
    }
  }

  lemma SealingChunk(st: State, n: State, z: Zip, hash: Vec -> Hash, b: BatchId, h: Hash)
    requires ChunkOk(st, z, hash, h) && st.chunks[h].batch == b
    requires b in st.batches && (st.batches[b].stage.Open? || st.batches[b].stage.Sealing?)
    requires n == st.(batches := st.batches[b := st.batches[b].(stage := Sealing)])
    ensures ChunkOk(n, z, hash, h)
  {
    hide InRaw, InSomeFrame;
  }

  lemma SealingBytes(st: State, b: BatchId)
    requires AllBytesOk(st) && b in st.batches && (st.batches[b].stage.Open? || st.batches[b].stage.Sealing?)
    ensures AllBytesOk(st.(batches := st.batches[b := st.batches[b].(stage := Sealing)]))
  {
    hide ChunksIn, LiveIn;
    var n := st.(batches := st.batches[b := st.batches[b].(stage := Sealing)]);
    forall id | id in n.batches
      ensures BytesOk(n, id)
    {
      assert BytesOk(st, id);
    }
  }

  /** From open to sealing. */
  lemma SealingStep(st: State, z: Zip, hash: Vec -> Hash, b: BatchId)
    requires Consistent(st, z, hash) && b in st.batches && (st.batches[b].stage.Open? || st.batches[b].stage.Sealing?)
    ensures var n := st.(batches := st.batches[b := st.batches[b].(stage := Sealing)]);
            Consistent(n, z, hash) && SameFiles(st, n)
  {
    hide *;
    var n := st.(batches := st.batches[b := st.batches[b].(stage := Sealing)]);
    Parts(st, z, hash);
    Parts(n, z, hash);
    SealingChunks(st, z, hash, b);
    SealingBytes(st, b);
    CountsSame(st, n);
    FilesKept(st, n, z, hash);
  }

  // ---------------------------------------------------------------- new chunks and references

  /** Record a chunk whose bytes lie in an open batch's staging file; nothing refers to it yet. */
  function InsertChunk(st: State, h: Hash, b: BatchId, offset: nat, data: Vec): State
    requires b in st.batches
  {
    st.(chunks := st.chunks[h := ChunkRow(|data|, b, offset, 0)], bytes := st.bytes[h := data],
        batches := st.batches[b := st.batches[b].(rawBytes := st.batches[b].rawBytes + |data|)])
  }

  ghost predicate CanInsert(st: State, hash: Vec -> Hash, h: Hash, b: BatchId, offset: nat, data: Vec) {
    h !in st.chunks && hash(data) == h && data != [] && b in st.batches && st.batches[b].stage.Open?
    && b in st.raw && InRaw(st.raw[b], offset, data)
  }

  lemma InsertChunks(st: State, z: Zip, hash: Vec -> Hash, h: Hash, b: BatchId, offset: nat, data: Vec)
    requires ChunksOk(st, z, hash) && CanInsert(st, hash, h, b, offset, data)
    ensures ChunksOk(InsertChunk(st, h, b, offset, data), z, hash)
  {
    hide ChunkOk;
    var n := InsertChunk(st, h, b, offset, data);
    forall g | g in n.chunks
      ensures ChunkOk(n, z, hash, g)
    {
      if g == h {
        InsertedChunk(st, z, hash, h, b, offset, data);
      } else {
        ChunkAt(st, z, hash, g);
        ChunkKept(st, n, z, hash, g);
      }
    }
  }

  lemma InsertedChunk(st: State, z: Zip, hash: Vec -> Hash, h: Hash, b: BatchId, offset: nat, data: Vec)
    requires CanInsert(st, hash, h, b, offset, data)
    ensures ChunkOk(InsertChunk(st, h, b, offset, data), z, hash, h)
  {
    hide InRaw, InSomeFrame;
  }

  lemma InsertCounts(st: State, h: Hash, b: BatchId, offset: nat, data: Vec)
    requires CountsOk(st) && h !in st.chunks && b in st.batches
    ensures CountsOk(InsertChunk(st, h, b, offset, data))
  {
    assert RefsTo(st.refs, h) == {};
  }

  lemma InsertBytes(st: State, h: Hash, b: BatchId, offset: nat, data: Vec)
    requires AllBytesOk(st) && h !in st.chunks && b in st.batches && st.batches[b].stage.Open?
    ensures AllBytesOk(InsertChunk(st, h, b, offset, data))
  {
    var n := InsertChunk(st, h, b, offset, data);
    forall id | id in n.batches
      ensures BytesOk(n, id)
    {
      assert BytesOk(st, id);
      InsertSums(st, h, b, offset, data, id);
    }
    hide BytesOk;
  }

  lemma InsertSums(st: State, h: Hash, b: BatchId, offset: nat, data: Vec, id: BatchId)
    requires h !in st.chunks && b in st.batches
    ensures var n := InsertChunk(st, h, b, offset, data);
            LiveIn(n.chunks, id) == LiveIn(st.chunks, id)
            && SizeSum(n.chunks, LiveIn(n.chunks, id)) == SizeSum(st.chunks, LiveIn(st.chunks, id))
            && ChunksIn(n.chunks, id) == ChunksIn(st.chunks, id) + (if id == b then {h} else {})
            && SizeSum(n.chunks, ChunksIn(n.chunks, id))
               == SizeSum(st.chunks, ChunksIn(st.chunks, id)) + (if id == b then |data| else 0)
  {
    hide SizeSum;
    var n := InsertChunk(st, h, b, offset, data);
    assert LiveIn(n.chunks, id) == LiveIn(st.chunks, id);
    assert ChunksIn(n.chunks, id) == ChunksIn(st.chunks, id) + (if id == b then {h} else {});
    SizeSumSame(st.chunks, n.chunks, LiveIn(st.chunks, id));
    SizeSumSame(st.chunks, n.chunks, ChunksIn(st.chunks, id));
    if id == b {
      SizeSumAdd(n.chunks, ChunksIn(st.chunks, id), h);
    } else {
      assert ChunksIn(n.chunks, id) == ChunksIn(st.chunks, id);
    }
  }

  lemma InsertStep(st: State, z: Zip, hash: Vec -> Hash, h: Hash, b: BatchId, offset: nat, data: Vec)
    requires Consistent(st, z, hash) && CanInsert(st, hash, h, b, offset, data)
    ensures var n := InsertChunk(st, h, b, offset, data); Consistent(n, z, hash) && SameFiles(st, n)
  {
    hide SameFiles, ChunkOk, CountsOk, ListsOk, BytesOk, InRaw, Consistent, ChunksOk, AllBytesOk;
    var n := InsertChunk(st, h, b, offset, data);
    Parts(st, z, hash);
    Parts(n, z, hash);
    InsertChunks(st, z, hash, h, b, offset, data);
    InsertCounts(st, h, b, offset, data);
    ListsSame(st, n);
    InsertBytes(st, h, b, offset, data);
    FilesKept(st, n, z, hash);
  }

  lemma ListsSame(a: State, b: State)
    requires b.refs == a.refs && b.lists == a.lists
    ensures ListsOk(b) <==> ListsOk(a)
  {}

  /** A file that has no chunks yet. */
  lemma NewFileStep(st: State, z: Zip, hash: Vec -> Hash, f: FileId)
    requires Consistent(st, z, hash) && f !in st.lists
    ensures var n := st.(lists := st.lists[f := []]);
            Consistent(n, z, hash) && Holds(n, f, []) && OtherFiles(st, n, f)
  {
    hide *;
    var n := st.(lists := st.lists[f := []]);
    Parts(st, z, hash);
    Parts(n, z, hash);
    NewFileLists(st, f);
    ListsOnly(st, n, z, hash);
    OthersKept(st, n, z, hash, f);
    EmptyFile(n, f);
  }

  lemma NewFileLists(st: State, f: FileId)
    requires ListsOk(st) && f !in st.lists
    ensures ListsOk(st.(lists := st.lists[f := []]))
  {}

  lemma ListsOnly(st: State, n: State, z: Zip, hash: Vec -> Hash)
    requires n == st.(lists := n.lists)
    ensures (ChunksOk(n, z, hash) <==> ChunksOk(st, z, hash)) && (CountsOk(n) <==> CountsOk(st))
            && (AllBytesOk(n) <==> AllBytesOk(st))
  {
    hide SizeSum, InRaw, InSomeFrame;
    assert forall h :: ChunkOk(n, z, hash, h) <==> ChunkOk(st, z, hash, h);
    assert forall b :: BytesOk(n, b) <==> BytesOk(st, b);
    hide ChunkOk, BytesOk;
  }

  lemma EmptyFile(st: State, f: FileId)
    requires f in st.lists && st.lists[f] == []
    ensures Holds(st, f, [])
  {}

  /** Every file but f holds what it held. */
  ghost predicate OtherFiles(a: State, b: State, f: FileId) {
    forall g, data :: g != f ==> (Holds(a, g, data) <==> Holds(b, g, data))
  }

  lemma OthersKept(a: State, b: State, z: Zip, hash: Vec -> Hash, f: FileId)
    requires Consistent(a, z, hash) && forall g :: g != f ==>
               (g in a.lists <==> g in b.lists) && (g in a.lists ==> b.lists[g] == a.lists[g])
    requires forall h :: h in a.chunks && h in a.bytes && a.chunks[h].refcount > 0 ==>
               h in b.chunks && h in b.bytes && b.bytes[h] == a.bytes[h]
    ensures OtherFiles(a, b, f)
  {
    hide Holds, Consistent;
    forall g, data: Vec | g != f
      ensures Holds(a, g, data) <==> Holds(b, g, data)
    {
      if g in a.lists {
        FileKept(a, b, z, hash, g);
      } else {
        NotHeld(a, g, data);
        NotHeld(b, g, data);
      }
    }
  }

  function Counted(chunks: map<Hash, ChunkRow>, h: Hash, delta: int): map<Hash, ChunkRow>
    requires h in chunks && chunks[h].refcount + delta >= 0
  {
    chunks[h := chunks[h].(refcount := chunks[h].refcount + delta)]
  }

  function LiveChanged(batches: map<BatchId, BatchRow>, b: BatchId, delta: int): map<BatchId, BatchRow>
    requires b in batches
  {
    batches[b := batches[b].(liveBytes := batches[b].liveBytes + delta)]
  }

  /** One more reference of file f: a chunk that nothing referred to becomes live. */
  function AddRef(st: State, f: FileId, h: Hash): State
    requires f in st.lists && h in st.chunks && st.chunks[h].batch in st.batches
  {
    st.(chunks := Counted(st.chunks, h, 1), refs := st.refs[Ref(f, |st.lists[f]|) := h],
        lists := st.lists[f := st.lists[f] + [h]],
        batches := if st.chunks[h].refcount == 0 then LiveChanged(st.batches, st.chunks[h].batch, st.chunks[h].size)
            else st.batches)
  }

  /** The last reference of file f goes; a chunk that nothing refers to any more is dead. */
  function DropRef(st: State, f: FileId): State
    requires f in st.lists && st.lists[f] != []
    requires var h := st.lists[f][|st.lists[f]| - 1];
             h in st.chunks && st.chunks[h].refcount > 0 && st.chunks[h].batch in st.batches
  {
    var n := |st.lists[f]| - 1;
    var h := st.lists[f][n];
    st.(chunks := Counted(st.chunks, h, -1), refs := st.refs - {Ref(f, n)}, lists := st.lists[f := st.lists[f][..n]],
        batches := if st.chunks[h].refcount == 1 then LiveChanged(st.batches, st.chunks[h].batch, 0 - st.chunks[h].size)
            else st.batches)
  }

  /** Changing a refcount leaves every chunk where it is. */
  lemma CountedChunks(st: State, n: State, z: Zip, hash: Vec -> Hash, h: Hash, delta: int)
    requires ChunksOk(st, z, hash) && h in st.chunks && st.chunks[h].refcount + delta >= 0
    requires n.chunks == Counted(st.chunks, h, delta) && n.bytes == st.bytes && n.raw == st.raw
             && n.objects == st.objects
    requires n.batches == st.batches || exists d: int :: st.chunks[h].batch in st.batches
                                                         && n.batches == LiveChanged(st.batches, st.chunks[h].batch, d)
    ensures ChunksOk(n, z, hash)
  {
    hide ChunkOk;
    forall g | g in n.chunks
      ensures ChunkOk(n, z, hash, g)
    {
      ChunkAt(st, z, hash, g);
      ChunkKept(st, n, z, hash, g);
    }
  }

  lemma CountedAll(a: map<Hash, ChunkRow>, h: Hash, delta: int, b: BatchId)
    requires h in a && a[h].refcount + delta >= 0
    ensures var c := Counted(a, h, delta);
            SizeSum(c, ChunksIn(c, b)) == SizeSum(a, ChunksIn(a, b)) && ChunksIn(c, b) == ChunksIn(a, b)
  {
    hide SizeSum;
    var c := Counted(a, h, delta);
    assert ChunksIn(c, b) == ChunksIn(a, b);
    SizeSumSame(a, c, ChunksIn(a, b));
  }

  lemma CountedUp(a: map<Hash, ChunkRow>, h: Hash, b: BatchId)
    requires h in a && b == a[h].batch && a[h].refcount == 0
    ensures var c := Counted(a, h, 1); SizeSum(c, LiveIn(c, b)) == SizeSum(a, LiveIn(a, b)) + a[h].size
  {
    hide SizeSum;
    var c := Counted(a, h, 1);
    assert LiveIn(c, b) == LiveIn(a, b) + {h};
    SizeSumAdd(c, LiveIn(a, b), h);
    SizeSumSame(a, c, LiveIn(a, b));
  }

  lemma CountedDown(a: map<Hash, ChunkRow>, h: Hash, b: BatchId)
    requires h in a && b == a[h].batch && a[h].refcount == 1
    ensures var c := Counted(a, h, -1); SizeSum(c, LiveIn(c, b)) == SizeSum(a, LiveIn(a, b)) - a[h].size
  {
    hide SizeSum;
    var c := Counted(a, h, -1);
    assert LiveIn(c, b) == LiveIn(a, b) - {h};
    SizeSumPick(a, LiveIn(a, b), h);
    SizeSumSame(a, c, LiveIn(a, b) - {h});
  }

  lemma CountedElse(a: map<Hash, ChunkRow>, h: Hash, delta: int, b: BatchId)
    requires h in a && a[h].refcount + delta >= 0
    requires b != a[h].batch || (a[h].refcount > 0 && a[h].refcount + delta > 0)
    ensures var c := Counted(a, h, delta); SizeSum(c, LiveIn(c, b)) == SizeSum(a, LiveIn(a, b))
  {
    hide SizeSum;
    var c := Counted(a, h, delta);
    assert LiveIn(c, b) == LiveIn(a, b);
    SizeSumSame(a, c, LiveIn(a, b));
  }

  lemma CountedBytes(st: State, n: State, h: Hash, delta: int)
    requires AllBytesOk(st) && h in st.chunks && st.chunks[h].refcount + delta >= 0 && st.chunks[h].batch in st.batches
    requires (delta == 1 || delta == -1) && n.chunks == Counted(st.chunks, h, delta)
    requires n.batches == if delta == 1 && st.chunks[h].refcount == 0
             then LiveChanged(st.batches, st.chunks[h].batch, st.chunks[h].size)
                          else if delta == -1 && st.chunks[h].refcount == 1 then
                            LiveChanged(st.batches, st.chunks[h].batch, 0 - st.chunks[h].size)
                          else st.batches
    ensures AllBytesOk(n)
  {
    hide SizeSum, ChunksIn, LiveIn;
    forall b | b in n.batches
      ensures BytesOk(n, b)
    {
      assert BytesOk(st, b);
      CountedAll(st.chunks, h, delta, b);
      if b == st.chunks[h].batch && delta == 1 && st.chunks[h].refcount == 0 {
        CountedUp(st.chunks, h, b);
      } else if b == st.chunks[h].batch && delta == -1 && st.chunks[h].refcount == 1 {
        CountedDown(st.chunks, h, b);
      } else {
        CountedElse(st.chunks, h, delta, b);
      }
    }
  }

  // ---------------------------------------------------------------- adding and dropping references

  lemma RefsAdded(refs: map<Ref, Hash>, r: Ref, h: Hash, g: Hash)
    requires r !in refs
    ensures |RefsTo(refs[r := h], g)| == |RefsTo(refs, g)| + (if g == h then 1 else 0)
  {
    if g == h {
      assert RefsTo(refs[r := h], g) == RefsTo(refs, g) + {r};
    } else {
      assert RefsTo(refs[r := h], g) == RefsTo(refs, g);
    }
  }

  lemma RefsDropped(refs: map<Ref, Hash>, r: Ref, g: Hash)
    requires r in refs
    ensures |RefsTo(refs - {r}, g)| == |RefsTo(refs, g)| - (if g == refs[r] then 1 else 0)
    ensures |RefsTo(refs, refs[r])| > 0
  {
    assert r in RefsTo(refs, refs[r]);
    if g == refs[r] {
      assert RefsTo(refs - {r}, g) == RefsTo(refs, g) - {r};
    } else {
      assert RefsTo(refs - {r}, g) == RefsTo(refs, g);
    }
  }

  lemma NextRefIsNew(st: State, f: FileId)
    requires ListsOk(st) && f in st.lists
    ensures Ref(f, |st.lists[f]|) !in st.refs
    ensures st.lists[f] != [] ==> Ref(f, |st.lists[f]| - 1) in st.refs
                                  && st.refs[Ref(f, |st.lists[f]| - 1)] == st.lists[f][|st.lists[f]| - 1]
  {}

  lemma AddRefCounts(st: State, f: FileId, h: Hash)
    requires CountsOk(st) && ListsOk(st) && f in st.lists && h in st.chunks && st.chunks[h].batch in st.batches
    ensures CountsOk(AddRef(st, f, h))
  {
    hide RefsTo, ListsOk;
    NextRefIsNew(st, f);
    var n := AddRef(st, f, h);
    forall g | g in n.chunks
      ensures n.chunks[g].refcount == |RefsTo(n.refs, g)|
    {
      RefsAdded(st.refs, Ref(f, |st.lists[f]|), h, g);
    }
  }

  lemma AddRefLists(st: State, f: FileId, h: Hash)
    requires ListsOk(st) && f in st.lists && h in st.chunks && st.chunks[h].batch in st.batches
    ensures ListsOk(AddRef(st, f, h))
  {}

  lemma AddRefFile(st: State, f: FileId, h: Hash, data: Vec)
    requires f in st.lists && h in st.chunks && st.chunks[h].batch in st.batches && h in st.bytes
    requires Holds(st, f, data)
    ensures Holds(AddRef(st, f, h), f, data + st.bytes[h])
  {
    var n := AddRef(st, f, h);
    assert n.lists[f] == st.lists[f] + [h];
    assert n.lists[f][..|st.lists[f]|] == st.lists[f];
    assert n.chunks.Keys == st.chunks.Keys && n.bytes == st.bytes;
  }

  /** One more chunk of a file. */
  lemma AddRefStep(st: State, z: Zip, hash: Vec -> Hash, f: FileId, h: Hash, data: Vec)
    requires Consistent(st, z, hash) && f in st.lists && h in st.chunks && Holds(st, f, data)
    ensures st.chunks[h].batch in st.batches && h in st.bytes
    ensures var n := AddRef(st, f, h);
            Consistent(n, z, hash) && Holds(n, f, data + st.bytes[h]) && OtherFiles(st, n, f)
  {
    hide Consistent, ChunksOk, CountsOk, ListsOk, AllBytesOk, Holds, OtherFiles, ChunkOk;
    Parts(st, z, hash);
    ChunkAt(st, z, hash, h);
    var n := AddRef(st, f, h);
    Parts(n, z, hash);
    CountedChunks(st, n, z, hash, h, 1);
    CountedBytes(st, n, h, 1);
    AddRefCounts(st, f, h);
    AddRefLists(st, f, h);
    AddRefFile(st, f, h, data);
    OthersKept(st, n, z, hash, f);
  }

  lemma DropRefCounts(st: State, f: FileId)
    requires CountsOk(st) && ListsOk(st) && f in st.lists && st.lists[f] != []
    ensures var h := st.lists[f][|st.lists[f]| - 1]; h in st.chunks && st.chunks[h].refcount > 0
    ensures var h := st.lists[f][|st.lists[f]| - 1];
            st.chunks[h].batch in st.batches ==> CountsOk(DropRef(st, f)) && ListsOk(DropRef(st, f))
  {
    var r := Ref(f, |st.lists[f]| - 1);
    var h := st.lists[f][|st.lists[f]| - 1];
    NextRefIsNew(st, f);
    RefsDropped(st.refs, r, h);
    if st.chunks[h].batch in st.batches {
      DropRefLists(st, f);
      hide RefsTo, ListsOk;
      var n := DropRef(st, f);
      forall g | g in n.chunks
        ensures n.chunks[g].refcount == |RefsTo(n.refs, g)|
      {
        RefsDropped(st.refs, r, g);
      }
    }
  }

  lemma DropRefLists(st: State, f: FileId)
    requires ListsOk(st) && f in st.lists && st.lists[f] != []
    requires var h := st.lists[f][|st.lists[f]| - 1];
             h in st.chunks && st.chunks[h].refcount > 0 && st.chunks[h].batch in st.batches
    ensures ListsOk(DropRef(st, f))
  {}

  /** One chunk of a file less. */
  lemma DropRefStep(st: State, z: Zip, hash: Vec -> Hash, f: FileId)
    requires Consistent(st, z, hash) && f in st.lists && st.lists[f] != []
    ensures var h := st.lists[f][|st.lists[f]| - 1];
            h in st.chunks && st.chunks[h].refcount > 0 && st.chunks[h].batch in st.batches
    ensures Consistent(DropRef(st, f), z, hash) && OtherFiles(st, DropRef(st, f), f)
  {
    hide Consistent, ChunksOk, CountsOk, ListsOk, AllBytesOk, OtherFiles, ChunkOk;
    Parts(st, z, hash);
    DropRefCounts(st, f);
    var h := st.lists[f][|st.lists[f]| - 1];
    ChunkAt(st, z, hash, h);
    var n := DropRef(st, f);
    Parts(n, z, hash);
    CountedChunks(st, n, z, hash, h, -1);
    CountedBytes(st, n, h, -1);
    OthersKept(st, n, z, hash, f);
  }

  /** A file without chunks goes. */
  lemma DropFileStep(st: State, z: Zip, hash: Vec -> Hash, f: FileId)
    requires Consistent(st, z, hash) && f in st.lists && st.lists[f] == []
    ensures var n := st.(lists := st.lists - {f}); Consistent(n, z, hash) && OtherFiles(st, n, f) && f !in n.lists
  {
    hide *;
    var n := st.(lists := st.lists - {f});
    Parts(st, z, hash);
    Parts(n, z, hash);
    DropFileLists(st, f);
    ListsOnly(st, n, z, hash);
    OthersKept(st, n, z, hash, f);
  }

  lemma DropFileLists(st: State, f: FileId)
    requires ListsOk(st) && f in st.lists && st.lists[f] == []
    ensures ListsOk(st.(lists := st.lists - {f}))
  {}

  // ---------------------------------------------------------------- sealing

  /** Chunks of batch b move to their place among the frames; those nothing refers to go. */
  function SealedChunks(chunks: map<Hash, ChunkRow>, b: BatchId, offsets: map<Hash, nat>): map<Hash, ChunkRow> {
    map h | h in chunks && !(chunks[h].batch == b && chunks[h].refcount == 0) ::
      if chunks[h].batch == b && h in offsets then chunks[h].(offset := offsets[h]) else chunks[h]
  }

  function SealCommit(st: State, b: BatchId, offsets: map<Hash, nat>, row: BatchRow): State {
    st.(chunks := SealedChunks(st.chunks, b, offsets), batches := st.batches[b := row])
  }

  /** Every live chunk of the batch lies in one of the frames of its new object. */
  ghost predicate CanSeal(st: State, z: Zip, b: BatchId, offsets: map<Hash, nat>, row: BatchRow) {
    b in st.batches && !st.batches[b].stage.Sealed? && b in st.objects
    && row.stage.Sealed? && Consecutive(row.frames)
       && row.rawBytes == row.liveBytes == SizeSum(st.chunks, LiveIn(st.chunks, b))
    && forall h :: h in LiveIn(st.chunks, b) && h in st.bytes ==>
         h in offsets && InSomeFrame(z, row, st.objects[b], offsets[h], st.bytes[h])
  }

  lemma SealedChunk(st: State, z: Zip, hash: Vec -> Hash, b: BatchId, offsets: map<Hash, nat>, row: BatchRow, h: Hash)
    requires ChunkOk(st, z, hash, h) && CanSeal(st, z, b, offsets, row) && st.chunks[h].batch == b
             && st.chunks[h].refcount > 0
    ensures ChunkOk(SealCommit(st, b, offsets, row), z, hash, h)
  {
    hide InRaw, InSomeFrame, SizeSum, Consecutive;
    assert h in LiveIn(st.chunks, b);
  }

  lemma SealChunks(st: State, z: Zip, hash: Vec -> Hash, b: BatchId, offsets: map<Hash, nat>, row: BatchRow)
    requires ChunksOk(st, z, hash) && CanSeal(st, z, b, offsets, row)
    ensures ChunksOk(SealCommit(st, b, offsets, row), z, hash)
  {
    hide ChunkOk, CanSeal;
    var n := SealCommit(st, b, offsets, row);
    forall h | h in n.chunks
      ensures ChunkOk(n, z, hash, h)
    {
      ChunkAt(st, z, hash, h);
      if st.chunks[h].batch == b {
        SealedChunk(st, z, hash, b, offsets, row, h);
      } else {
        ChunkKept(st, n, z, hash, h);
      }
    }
  }

  /** Dropping rows that nothing refers to. */
  lemma CountsLess(st: State, n: State)
    requires CountsOk(st) && n.refs == st.refs && n.chunks.Keys <= st.chunks.Keys
    requires forall h :: h in st.chunks && st.chunks[h].refcount > 0 ==> h in n.chunks
    requires forall h :: h in n.chunks ==> n.chunks[h].refcount == st.chunks[h].refcount
    ensures CountsOk(n)
  {
    forall r | r in n.refs
      ensures n.refs[r] in n.chunks
    {
      assert r in RefsTo(st.refs, n.refs[r]);
    }
  }

  lemma SealSums(st: State, b: BatchId, offsets: map<Hash, nat>, id: BatchId)
    ensures var c := SealedChunks(st.chunks, b, offsets);
            LiveIn(c, id) == LiveIn(st.chunks, id)
            && ChunksIn(c, id) == (if id == b then LiveIn(st.chunks, b) else ChunksIn(st.chunks, id))
            && SizeSum(c, LiveIn(c, id)) == SizeSum(st.chunks, LiveIn(st.chunks, id))
            && (id != b ==> SizeSum(c, ChunksIn(c, id)) == SizeSum(st.chunks, ChunksIn(st.chunks, id)))
  {
    hide SizeSum;
    var c := SealedChunks(st.chunks, b, offsets);
    assert LiveIn(c, id) == LiveIn(st.chunks, id);
    SizeSumSame(st.chunks, c, LiveIn(c, id));
    if id == b {
      assert ChunksIn(c, id) == LiveIn(st.chunks, b);
    } else {
      assert ChunksIn(c, id) == ChunksIn(st.chunks, id);
      SizeSumSame(st.chunks, c, ChunksIn(c, id));
    }
  }

  lemma SealBytes(st: State, z: Zip, b: BatchId, offsets: map<Hash, nat>, row: BatchRow)
    requires AllBytesOk(st) && CanSeal(st, z, b, offsets, row)
    ensures AllBytesOk(SealCommit(st, b, offsets, row))
  {
    hide SizeSum, LiveIn, ChunksIn, SealedChunks, InSomeFrame, Consecutive;
    var n := SealCommit(st, b, offsets, row);
    forall id | id in n.batches
      ensures BytesOk(n, id)
    {
      assert BytesOk(st, id);
      SealSums(st, b, offsets, id);
    }
  }

  lemma SealTables(st: State, b: BatchId, offsets: map<Hash, nat>, row: BatchRow)
    requires CountsOk(st)
    ensures CountsOk(SealCommit(st, b, offsets, row)) && (ListsOk(SealCommit(st, b, offsets, row)) <==> ListsOk(st))
    ensures forall h :: h in st.chunks && st.chunks[h].refcount > 0 ==> h in SealCommit(st, b, offsets, row).chunks
  {
    CountsLess(st, SealCommit(st, b, offsets, row));
    ListsSame(st, SealCommit(st, b, offsets, row));
    hide CountsOk, ListsOk;
  }

  /** Sealing is invisible. */
  lemma SealStep(st: State, z: Zip, hash: Vec -> Hash, b: BatchId, offsets: map<Hash, nat>, row: BatchRow)
    requires Consistent(st, z, hash) && CanSeal(st, z, b, offsets, row)
    ensures Consistent(SealCommit(st, b, offsets, row), z, hash) && SameFiles(st, SealCommit(st, b, offsets, row))
  {
    hide Consistent, ChunksOk, CountsOk, ListsOk, AllBytesOk, CanSeal, SealedChunks, SameFiles;
    var n := SealCommit(st, b, offsets, row);
    Parts(st, z, hash);
    Parts(n, z, hash);
    SealChunks(st, z, hash, b, offsets, row);
    SealBytes(st, z, b, offsets, row);
    SealTables(st, b, offsets, row);
    FilesKept(st, n, z, hash);
  }

  // ---------------------------------------------------------------- compacting

  /** The live chunks of batch v move to batch t; its dead chunks go. */
  function MovedChunks(chunks: map<Hash, ChunkRow>, v: BatchId, t: BatchId,
                       offsets: map<Hash, nat>): map<Hash, ChunkRow> {
    map h | h in chunks && !(chunks[h].batch == v && chunks[h].refcount == 0) ::
      if chunks[h].batch == v && h in offsets then chunks[h].(batch := t, offset := offsets[h]) else chunks[h]
  }

  function CompactCommit(st: State, v: BatchId, t: BatchId, offsets: map<Hash, nat>, total: nat): State
    requires v in st.batches && t in st.batches
  {
    st.(chunks := MovedChunks(st.chunks, v, t, offsets),
        batches := st.batches[t := st.batches[t].(rawBytes := st.batches[t].rawBytes + total,
                                                  liveBytes := st.batches[t].liveBytes + total)]
                             [v := st.batches[v].(stage := Deleted, liveBytes := 0, frames := [])])
  }

  ghost predicate CanCompact(st: State, v: BatchId, t: BatchId, offsets: map<Hash, nat>, total: nat) {
    v in st.batches && t in st.batches && v != t && st.batches[t].stage.Open? && t in st.raw
    && total == SizeSum(st.chunks, LiveIn(st.chunks, v))
    && forall h :: h in LiveIn(st.chunks, v) && h in st.bytes ==>
         h in offsets && InRaw(st.raw[t], offsets[h], st.bytes[h])
  }

  lemma MovedChunk(st: State, z: Zip, hash: Vec -> Hash, v: BatchId, t: BatchId, offsets: map<Hash, nat>, total: nat,
                   h: Hash)
    requires ChunkOk(st, z, hash, h) && CanCompact(st, v, t, offsets, total)
    requires st.chunks[h].batch == v && st.chunks[h].refcount > 0
    ensures ChunkOk(CompactCommit(st, v, t, offsets, total), z, hash, h)
  {
    hide InRaw, InSomeFrame, SizeSum;
    assert h in LiveIn(st.chunks, v);
  }

  lemma CompactChunks(st: State, z: Zip, hash: Vec -> Hash, v: BatchId, t: BatchId, offsets: map<Hash, nat>, total: nat)
    requires ChunksOk(st, z, hash) && CanCompact(st, v, t, offsets, total)
    ensures ChunksOk(CompactCommit(st, v, t, offsets, total), z, hash)
  {
    CompactParts(st, v, t, offsets, total);
    hide ChunkOk, CanCompact;
    var n := CompactCommit(st, v, t, offsets, total);
    forall h | h in n.chunks
      ensures ChunkOk(n, z, hash, h)
    {
      ChunkAt(st, z, hash, h);
      if st.chunks[h].batch == v {
        MovedChunk(st, z, hash, v, t, offsets, total, h);
      } else {
        ChunkKept(st, n, z, hash, h);
      }
    }
  }

  lemma CompactParts(st: State, v: BatchId, t: BatchId, offsets: map<Hash, nat>, total: nat)
    requires CanCompact(st, v, t, offsets, total)
    ensures v in st.batches && t in st.batches && v != t && st.batches[t].stage.Open?
    ensures total == SizeSum(st.chunks, LiveIn(st.chunks, v))
  {
    hide InRaw, SizeSum;
  }

  lemma MovedSums(st: State, v: BatchId, t: BatchId, offsets: map<Hash, nat>, id: BatchId)
    requires v != t && forall h :: h in LiveIn(st.chunks, v) ==> h in offsets
    ensures var c := MovedChunks(st.chunks, v, t, offsets);
            LiveIn(c, id) == (if id == t then LiveIn(st.chunks, t) + LiveIn(st.chunks, v)
                              else if id == v then {} else LiveIn(st.chunks, id))
            && ChunksIn(c, id) == (if id == t then ChunksIn(st.chunks, t) + LiveIn(st.chunks, v)
                                   else if id == v then {} else ChunksIn(st.chunks, id))
  {
    hide SizeSum;
  }

  lemma MovedTotals(st: State, v: BatchId, t: BatchId, offsets: map<Hash, nat>, id: BatchId)
    requires v != t && forall h :: h in LiveIn(st.chunks, v) ==> h in offsets
    ensures var c := MovedChunks(st.chunks, v, t, offsets); var moved := SizeSum(st.chunks, LiveIn(st.chunks, v));
            SizeSum(c, LiveIn(c, id))
            == (if id == v then 0 else SizeSum(st.chunks, LiveIn(st.chunks, id)) + (if id == t then moved else 0))
            && SizeSum(c, ChunksIn(c, id))
               == (if id == v then 0 else SizeSum(st.chunks, ChunksIn(st.chunks, id)) + (if id == t then moved else 0))
  {
    hide LiveIn, ChunksIn;
    var c := MovedChunks(st.chunks, v, t, offsets);
    MovedSums(st, v, t, offsets, id);
    MovedSizes(st.chunks, v, t, offsets);
    hide SizeSum, MovedChunks;
    SizeSumSame(st.chunks, c, LiveIn(c, id));
    SizeSumSame(st.chunks, c, ChunksIn(c, id));
    if id == t {
      BatchesApart(st.chunks, v, t);
      SizeSumUnion(st.chunks, LiveIn(st.chunks, t), LiveIn(st.chunks, v));
      SizeSumUnion(st.chunks, ChunksIn(st.chunks, t), LiveIn(st.chunks, v));
    } else if id == v {
      NoSum(st.chunks);
    }
  }

  lemma NoSum(chunks: map<Hash, ChunkRow>)
    ensures SizeSum(chunks, {}) == 0
  {}

  lemma BatchesApart(chunks: map<Hash, ChunkRow>, v: BatchId, t: BatchId)
    requires v != t
    ensures LiveIn(chunks, t) !! LiveIn(chunks, v) && ChunksIn(chunks, t) !! LiveIn(chunks, v)
  {}

  lemma MovedSizes(chunks: map<Hash, ChunkRow>, v: BatchId, t: BatchId, offsets: map<Hash, nat>)
    ensures var c := MovedChunks(chunks, v, t, offsets);
            c.Keys <= chunks.Keys && forall h :: h in c ==>
                c[h].size == chunks[h].size && c[h].refcount == chunks[h].refcount
  {}

  lemma LiveHasOffsets(st: State, z: Zip, hash: Vec -> Hash, v: BatchId, t: BatchId, offsets: map<Hash, nat>,
                       total: nat)
    requires ChunksOk(st, z, hash) && CanCompact(st, v, t, offsets, total)
    ensures forall h :: h in LiveIn(st.chunks, v) ==> h in offsets
  {
    hide ChunksOk, InRaw, SizeSum;
    forall h | h in LiveIn(st.chunks, v)
      ensures h in offsets
    {
      ChunkAt(st, z, hash, h);
    }
  }

  lemma CompactBytesAt(st: State, z: Zip, hash: Vec -> Hash, v: BatchId, t: BatchId, offsets: map<Hash, nat>,
                       total: nat,
                       id: BatchId)
    requires ChunksOk(st, z, hash) && CanCompact(st, v, t, offsets, total) && id in st.batches && BytesOk(st, id)
    requires v in st.batches && t in st.batches && (BytesOk(st, v) && BytesOk(st, t))
    ensures id in CompactCommit(st, v, t, offsets, total).batches
            && BytesOk(CompactCommit(st, v, t, offsets, total), id)
  {
    hide SizeSum, LiveIn, ChunksIn, MovedChunks, CanCompact, ChunksOk;
    CompactParts(st, v, t, offsets, total);
    LiveHasOffsets(st, z, hash, v, t, offsets, total);
    MovedTotals(st, v, t, offsets, id);
    MovedSums(st, v, t, offsets, id);
  }

  lemma CompactBytes(st: State, z: Zip, hash: Vec -> Hash, v: BatchId, t: BatchId, offsets: map<Hash, nat>, total: nat)
    requires AllBytesOk(st) && ChunksOk(st, z, hash) && CanCompact(st, v, t, offsets, total)
    ensures v in st.batches && t in st.batches && AllBytesOk(CompactCommit(st, v, t, offsets, total))
  {
    hide SizeSum, LiveIn, ChunksIn, MovedChunks, CanCompact, ChunksOk, BytesOk;
    CompactParts(st, v, t, offsets, total);
    var n := CompactCommit(st, v, t, offsets, total);
    forall id | id in n.batches
      ensures BytesOk(n, id)
    {
      assert BytesOk(st, id);
      CompactBytesAt(st, z, hash, v, t, offsets, total, id);
    }
  }

  lemma CompactTables(st: State, v: BatchId, t: BatchId, offsets: map<Hash, nat>, total: nat)
    requires CountsOk(st) && v in st.batches && t in st.batches
    ensures CountsOk(CompactCommit(st, v, t, offsets, total))
    ensures ListsOk(CompactCommit(st, v, t, offsets, total)) <==> ListsOk(st)
    ensures forall h :: h in st.chunks && st.chunks[h].refcount > 0 ==>
              h in CompactCommit(st, v, t, offsets, total).chunks
  {
    CountsLess(st, CompactCommit(st, v, t, offsets, total));
    ListsSame(st, CompactCommit(st, v, t, offsets, total));
    hide CountsOk, ListsOk;
  }

  /** Compacting is invisible. */
  lemma CompactStep(st: State, z: Zip, hash: Vec -> Hash, v: BatchId, t: BatchId, offsets: map<Hash, nat>, total: nat)
    requires Consistent(st, z, hash) && CanCompact(st, v, t, offsets, total)
    ensures v in st.batches && t in st.batches
    ensures var n := CompactCommit(st, v, t, offsets, total); Consistent(n, z, hash) && SameFiles(st, n)
  {
    hide Consistent, ChunksOk, CountsOk, ListsOk, AllBytesOk, CanCompact, MovedChunks, SameFiles;
    CompactParts(st, v, t, offsets, total);
    var n := CompactCommit(st, v, t, offsets, total);
    Parts(st, z, hash);
    Parts(n, z, hash);
    CompactChunks(st, z, hash, v, t, offsets, total);
    CompactBytes(st, z, hash, v, t, offsets, total);
    CompactTables(st, v, t, offsets, total);
    FilesKept(st, n, z, hash);
  }
}
