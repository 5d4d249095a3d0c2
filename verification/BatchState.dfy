/** The dedup tier's tables, staging files and sealed objects, and what keeps every file readable. */
module BatchState {
  import opened LinearAlgebra

  /** A chunk is named by its digest. */
  type Hash = Vec
  type BatchId = nat
  type FileId = nat

  datatype ChunkRow = ChunkRow(size: nat, batch: BatchId, offset: nat, refcount: nat)
  datatype Ref = Ref(file: FileId, seqno: nat)
  datatype Stage = Open | Sealing | Sealed | Deleted
  datatype Frame = Frame(rawStart: nat, rawLen: nat, compOffset: nat, compLen: nat)
  datatype BatchRow = BatchRow(stage: Stage, rawBytes: nat, liveBytes: int, dictLen: nat, frames: seq<Frame>)

  /** The compressor and its inverse, with the dictionary as first argument. */
  datatype Zip = Zip(compress: (Vec, Vec) -> Vec, decompress: (Vec, Vec) -> Vec)

  ghost predicate Inverse(z: Zip) {
    forall d: Vec, x: Vec :: z.decompress(d, z.compress(d, x)) == x
  }

  ghost predicate NoCollisions(hash: Vec -> Hash) {
    forall a, b :: hash(a) == hash(b) ==> a == b
  }

  /** Tables, staging files and objects; bytes, lists and data say what they stand for. */
  datatype State = State(
    chunks: map<Hash, ChunkRow>,
    refs: map<Ref, Hash>,
    batches: map<BatchId, BatchRow>,
    raw: map<BatchId, Vec>,
    objects: map<BatchId, Vec>,
    bytes: map<Hash, Vec>,
    lists: map<FileId, seq<Hash>>)

  // ---------------------------------------------------------------- sums

  ghost function SizeSum(chunks: map<Hash, ChunkRow>, s: set<Hash>): nat
    requires s <= chunks.Keys
  {
    if s == {} then 0 else var h :| h in s; chunks[h].size + SizeSum(chunks, s - {h})
  }

  lemma {:induction false} SizeSumPick(chunks: map<Hash, ChunkRow>, s: set<Hash>, h: Hash)
    requires s <= chunks.Keys && h in s
    ensures SizeSum(chunks, s) == chunks[h].size + SizeSum(chunks, s - {h})
    decreases s
  {
    var g :| g in s && SizeSum(chunks, s) == chunks[g].size + SizeSum(chunks, s - {g});
    if g != h {
      SizeSumPick(chunks, s - {g}, h);
      SizeSumPick(chunks, s - {h}, g);
      assert s - {g} - {h} == s - {h} - {g};
    }
  }

  lemma SizeSumAdd(chunks: map<Hash, ChunkRow>, s: set<Hash>, h: Hash)
    requires s <= chunks.Keys && h in chunks && h !in s
    ensures SizeSum(chunks, s + {h}) == SizeSum(chunks, s) + chunks[h].size
  {
    SizeSumPick(chunks, s + {h}, h);
    assert s + {h} - {h} == s;
  }

  lemma {:induction false} SizeSumSame(a: map<Hash, ChunkRow>, b: map<Hash, ChunkRow>, s: set<Hash>)
    requires s <= a.Keys && s <= b.Keys && forall h :: h in s ==> a[h].size == b[h].size
    ensures SizeSum(a, s) == SizeSum(b, s)
    decreases s
  {
    if s != {} {
      var h :| h in s;
      SizeSumPick(a, s, h);
      SizeSumPick(b, s, h);
      SizeSumSame(a, b, s - {h});
    }
  }

  lemma {:induction false} SizeSumSubset(chunks: map<Hash, ChunkRow>, s: set<Hash>, t: set<Hash>)
    requires s <= t <= chunks.Keys
    ensures SizeSum(chunks, s) <= SizeSum(chunks, t)
    decreases t - s
  {
    if t - s == {} {
      assert s == t;
    } else {
      var h :| h in t - s;
      SizeSumAdd(chunks, s, h);
      SizeSumSubset(chunks, s + {h}, t);
    }
  }

  lemma {:induction false} SizeSumUnion(chunks: map<Hash, ChunkRow>, s: set<Hash>, t: set<Hash>)
    requires s <= chunks.Keys && t <= chunks.Keys && s !! t
    ensures SizeSum(chunks, s + t) == SizeSum(chunks, s) + SizeSum(chunks, t)
    decreases t
  {
    if t == {} {
      assert s + t == s;
    } else {
      var h :| h in t;
      SizeSumPick(chunks, t, h);
      SizeSumPick(chunks, s + t, h);
      SizeSumUnion(chunks, s, t - {h});
      assert s + t - {h} == s + (t - {h});
    }
  }

  // ---------------------------------------------------------------- reading a chunk

  /** The bytes [start, start + n) of v, as far as v goes. */
  function Part(v: Vec, start: nat, n: nat): Vec {
    if start >= |v| then [] else if start + n > |v| then v[start..] else v[start..start + n]
  }

  function DictOf(row: BatchRow, blob: Vec): Vec {
    Part(blob, 0, row.dictLen)
  }

  /** The decompressed contents of frame i. */
  function Plain(z: Zip, row: BatchRow, blob: Vec, i: nat): Vec
    requires i < |row.frames|
  {
    z.decompress(DictOf(row, blob), Part(blob, row.frames[i].compOffset, row.frames[i].compLen))
  }

  /** The frames follow one another without gap or overlap. */
  ghost predicate Consecutive(frames: seq<Frame>) {
    (forall i :: 0 <= i < |frames| ==> frames[i].rawLen > 0)
    && (|frames| > 0 ==> frames[0].rawStart == 0)
    && forall i :: 0 < i < |frames| ==> frames[i].rawStart == frames[i - 1].rawStart + frames[i - 1].rawLen
  }

  /** The chunk lies wholly in frame i, which decompresses to its bytes there. */
  ghost predicate InFrame(z: Zip, row: BatchRow, blob: Vec, offset: nat, data: Vec, i: nat) {
    i < |row.frames|
    && var fr := row.frames[i];
    fr.rawStart <= offset && offset + |data| <= fr.rawStart + fr.rawLen
    && |Plain(z, row, blob, i)| == fr.rawLen
    && Part(Plain(z, row, blob, i), offset - fr.rawStart, |data|) == data
  }

  ghost predicate InSomeFrame(z: Zip, row: BatchRow, blob: Vec, offset: nat, data: Vec) {
    exists i :: InFrame(z, row, blob, offset, data, i)
  }

  ghost predicate Located(st: State, z: Zip, h: Hash)
    requires h in st.chunks && h in st.bytes
  {
    var c := st.chunks[h];
    c.batch in st.batches
    && match st.batches[c.batch].stage
       case Open => c.batch in st.raw && InRaw(st.raw[c.batch], c.offset, st.bytes[h])
       case Sealing => c.batch in st.raw && InRaw(st.raw[c.batch], c.offset, st.bytes[h])
       case Sealed => c.batch in st.objects
           && InSomeFrame(z, st.batches[c.batch], st.objects[c.batch], c.offset, st.bytes[h])
       case Deleted => false
  }

  ghost predicate InRaw(file: Vec, offset: nat, data: Vec) {
    offset + |data| <= |file| && file[offset..offset + |data|] == data
  }

  // ---------------------------------------------------------------- consistency

  ghost predicate ChunkOk(st: State, z: Zip, hash: Vec -> Hash, h: Hash) {
    h in st.chunks && h in st.bytes && hash(st.bytes[h]) == h && |st.bytes[h]| == st.chunks[h].size > 0
    && Located(st, z, h)
  }

  function RefsTo(refs: map<Ref, Hash>, h: Hash): set<Ref> {
    set r | r in refs && refs[r] == h
  }

  /** The refcount is the number of references. */
  ghost predicate CountsOk(st: State) {
    (forall r :: r in st.refs ==> st.refs[r] in st.chunks)
    && forall h :: h in st.chunks ==> st.chunks[h].refcount == |RefsTo(st.refs, h)|
  }

  /** The references of each file are numbered from 0 and name the chunks of its list. */
  ghost predicate ListsOk(st: State) {
    (forall r :: r in st.refs <==> r.file in st.lists && r.seqno < |st.lists[r.file]|)
    && forall r :: r in st.refs ==> st.refs[r] == st.lists[r.file][r.seqno]
  }

  function ChunksIn(chunks: map<Hash, ChunkRow>, b: BatchId): (r: set<Hash>)
    ensures r <= chunks.Keys
  {
    set h | h in chunks && chunks[h].batch == b
  }

  function LiveIn(chunks: map<Hash, ChunkRow>, b: BatchId): (r: set<Hash>)
    ensures r <= chunks.Keys
  {
    set h | h in chunks && chunks[h].batch == b && chunks[h].refcount > 0
  }

  /** A batch's byte counts are the total sizes of its live chunks and of all its chunks. */
  ghost predicate BytesOk(st: State, b: BatchId) {
    b in st.batches
    && st.batches[b].liveBytes == SizeSum(st.chunks, LiveIn(st.chunks, b))
    && (!st.batches[b].stage.Deleted? ==> st.batches[b].rawBytes == SizeSum(st.chunks, ChunksIn(st.chunks, b)))
    && (st.batches[b].stage.Deleted? ==> ChunksIn(st.chunks, b) == {})
    && Consecutive(st.batches[b].frames)
  }

  ghost predicate Consistent(st: State, z: Zip, hash: Vec -> Hash) {
    (forall h :: h in st.chunks ==> ChunkOk(st, z, hash, h))
    && CountsOk(st) && ListsOk(st)
    && forall b :: b in st.batches ==> BytesOk(st, b)
  }

  /** Live bytes never exceed raw bytes. */
  lemma LiveAtMostRaw(st: State, z: Zip, hash: Vec -> Hash, b: BatchId)
    requires Consistent(st, z, hash) && b in st.batches && !st.batches[b].stage.Deleted?
    ensures 0 <= st.batches[b].liveBytes <= st.batches[b].rawBytes
  {
    hide ChunkOk;
    assert BytesOk(st, b);
    SizeSumSubset(st.chunks, LiveIn(st.chunks, b), ChunksIn(st.chunks, b));
  }

  // ---------------------------------------------------------------- what files hold

  /** The bytes of a list of chunks. */
  function Contents(list: seq<Hash>, bytes: map<Hash, Vec>): Vec
    requires forall i :: 0 <= i < |list| ==> list[i] in bytes
  {
    if list == [] then [] else Contents(list[..|list| - 1], bytes) + bytes[list[|list| - 1]]
  }

  /** File f is held with these bytes, in chunks that all exist. */
  ghost predicate Holds(st: State, f: FileId, data: Vec) {
    f in st.lists && (forall i :: 0 <= i < |st.lists[f]| ==> st.lists[f][i] in st.chunks && st.lists[f][i] in st.bytes)
    && data == Contents(st.lists[f], st.bytes)
  }

  ghost predicate SameFiles(a: State, b: State) {
    forall f, data :: Holds(a, f, data) <==> Holds(b, f, data)
  }

  lemma {:induction false} ContentsSame(list: seq<Hash>, a: map<Hash, Vec>, b: map<Hash, Vec>)
    requires forall i :: 0 <= i < |list| ==> list[i] in a && list[i] in b && a[list[i]] == b[list[i]]
    ensures Contents(list, a) == Contents(list, b)
  {
    if list != [] {
      ContentsSame(list[..|list| - 1], a, b);
    }
  }

  /** Every listed file is held. */
  lemma ListedHeld(st: State, z: Zip, hash: Vec -> Hash, f: FileId)
    requires Consistent(st, z, hash) && f in st.lists
    ensures forall i :: 0 <= i < |st.lists[f]| ==>
              st.lists[f][i] in st.chunks && st.lists[f][i] in st.bytes && st.chunks[st.lists[f][i]].refcount > 0
    ensures Holds(st, f, Contents(st.lists[f], st.bytes))
  {
    forall i: nat | i < |st.lists[f]|
      ensures st.lists[f][i] in st.chunks && st.lists[f][i] in st.bytes && st.chunks[st.lists[f][i]].refcount > 0
    {
      assert Ref(f, i) in st.refs;
      assert Ref(f, i) in RefsTo(st.refs, st.lists[f][i]);
      assert ChunkOk(st, z, hash, st.lists[f][i]);
    }
  }

  /** A file stays as it was when its list and the bytes of its chunks do. */
  lemma FileKept(a: State, b: State, z: Zip, hash: Vec -> Hash, f: FileId)
    requires Consistent(a, z, hash) && f in a.lists && f in b.lists && b.lists[f] == a.lists[f]
    requires forall h :: h in a.chunks && h in a.bytes && a.chunks[h].refcount > 0 ==>
               h in b.chunks && h in b.bytes && b.bytes[h] == a.bytes[h]
    ensures forall data :: Holds(a, f, data) <==> Holds(b, f, data)
  {
    hide Consistent, Contents;
    ListedHeld(a, z, hash, f);
    ContentsSame(a.lists[f], a.bytes, b.bytes);
  }

  /** Files stay as they were when their lists and the bytes of their chunks do. */
  lemma FilesKept(a: State, b: State, z: Zip, hash: Vec -> Hash)
    requires Consistent(a, z, hash) && b.lists == a.lists
    requires forall h :: h in a.chunks && h in a.bytes && a.chunks[h].refcount > 0 ==>
               h in b.chunks && h in b.bytes && b.bytes[h] == a.bytes[h]
    ensures SameFiles(a, b)
  {
    hide Holds, Consistent;
    forall f, data: Vec
      ensures Holds(a, f, data) <==> Holds(b, f, data)
    {
      if f in a.lists {
        FileKept(a, b, z, hash, f);
      } else {
        NotHeld(a, f, data);
        NotHeld(b, f, data);
      }
    }
  }

  lemma NotHeld(st: State, f: FileId, data: Vec)
    requires f !in st.lists
    ensures !Holds(st, f, data)
  {}
}
