/** What ingesting appends to a staging file: the chunks that the index does not know, each once. */
module Staging {
  import opened LinearAlgebra
  import opened BatchState
  import opened BatchSteps
  import Sequences

  /** Where a new chunk was appended. */
  datatype Spot = Spot(offset: nat, size: nat)

  // ---------------------------------------------------------------- new pieces

  /** The digests of the pieces, in order. */
  function Digests(hash: Vec -> Hash, pieces: seq<Vec>): (r: seq<Hash>)
    ensures |r| == |pieces| && forall i :: 0 <= i < |pieces| ==> r[i] == hash(pieces[i])
  {
    seq(|pieces|, i requires 0 <= i < |pieces| => hash(pieces[i]))
  }

  lemma DigestsNext(hash: Vec -> Hash, pieces: seq<Vec>, piece: Vec)
    ensures Digests(hash, pieces + [piece]) == Digests(hash, pieces) + [hash(piece)]
  {}

  lemma NoDigests(hash: Vec -> Hash)
    ensures Digests(hash, []) == []
  {}

  /** The pieces that are not known, each where it occurs first. */
  ghost function NewPieces(known: set<Hash>, hash: Vec -> Hash, pieces: seq<Vec>): seq<Vec> {
    if pieces == [] then []
    else
      var n := |pieces| - 1;
      var before := NewPieces(known, hash, pieces[..n]);
      if hash(pieces[n]) in known || hash(pieces[n]) in Digests(hash, before) then before else before + [pieces[n]]
  }

  /** These are pieces at positions in ascending order, each the first with its digest. */
  ghost predicate Firsts(hash: Vec -> Hash, pieces: seq<Vec>, some: seq<Vec>, at: seq<nat>) {
    |at| == |some| && (forall i, j :: 0 <= i < j < |at| ==> at[i] < at[j])
    && forall i :: 0 <= i < |at| ==>
         at[i] < |pieces| && some[i] == pieces[at[i]] && hash(some[i]) !in Digests(hash, pieces[..at[i]])
  }

  lemma FirstsMore(hash: Vec -> Hash, pieces: seq<Vec>, some: seq<Vec>, at: seq<nat>, piece: Vec)
    requires Firsts(hash, pieces, some, at)
    ensures Firsts(hash, pieces + [piece], some, at)
    ensures hash(piece) !in Digests(hash, pieces) ==>
              Firsts(hash, pieces + [piece], some + [piece], at + [|pieces|])
  {
    hide Digests;
    assert (pieces + [piece])[..|pieces|] == pieces;
    forall i | 0 <= i < |at|
      ensures (pieces + [piece])[..at[i]] == pieces[..at[i]]
    {}
  }

  /** Exactly the unknown digests are among the new pieces, each once, in the order of their first occurrence. */
  lemma {:induction false} NewPiecesAre(known: set<Hash>, hash: Vec -> Hash, pieces: seq<Vec>) returns (at: seq<nat>)
    ensures Firsts(hash, pieces, NewPieces(known, hash, pieces), at)
    ensures forall h :: h in Digests(hash, NewPieces(known, hash, pieces)) <==>
              h in Digests(hash, pieces) && h !in known
  {
    if pieces == [] {
      at := [];
    } else {
      var n := |pieces| - 1;
      var init, last, before := pieces[..n], pieces[n], NewPieces(known, hash, pieces[..n]);
      at := NewPiecesAre(known, hash, init);
      assert pieces == init + [last];
      FirstsMore(hash, init, before, at, last);
      DigestsNext(hash, init, last);
      DigestsNext(hash, before, last);
      hide Digests, Firsts;
      if hash(last) !in known && hash(last) !in Digests(hash, before) {
        at := at + [n];
      }
    }
  }

  /** The staging file was base and has grown by the new pieces; added says where each of them lies. */
  ghost predicate Laid(known: set<Hash>, base: Vec, file: Vec, hash: Vec -> Hash, pieces: seq<Vec>, hashes: seq<Hash>,
                       added: map<Hash, Spot>)
  {
    var new' := NewPieces(known, hash, pieces);
    hashes == Digests(hash, pieces) && file == base + Sequences.Join(new') && Spots(base, hash, new', added)
  }

  /** Each of the pieces lies behind those before it, and added lists nothing else. */
  ghost predicate Spots(base: Vec, hash: Vec -> Hash, pieces: seq<Vec>, added: map<Hash, Spot>) {
    (forall h :: h in added <==> h in Digests(hash, pieces))
    && forall i :: 0 <= i < |pieces| ==> hash(pieces[i]) in added && added[hash(pieces[i])] == SpotOf(base, pieces, i)
  }

  ghost function SpotOf(base: Vec, pieces: seq<Vec>, i: nat): Spot
    requires i < |pieces|
  {
    Spot(|base| + |Sequences.Join(pieces[..i])|, |pieces[i]|)
  }

  /** The staging file after the new ones of these pieces. */
  ghost function Grows(known: set<Hash>, base: Vec, hash: Vec -> Hash, pieces: seq<Vec>): Vec {
    base + Sequences.Join(NewPieces(known, hash, pieces))
  }

  lemma LaidGrows(known: set<Hash>, base: Vec, file: Vec, hash: Vec -> Hash, pieces: seq<Vec>, hashes: seq<Hash>,
                  added: map<Hash, Spot>)
    requires Laid(known, base, file, hash, pieces, hashes, added)
    ensures file == Grows(known, base, hash, pieces) && hashes == Digests(hash, pieces)
    ensures forall h :: h in added <==> h in Digests(hash, NewPieces(known, hash, pieces))
    ensures forall i :: 0 <= i < |NewPieces(known, hash, pieces)| ==>
              var new' := NewPieces(known, hash, pieces);
              hash(new'[i]) in added && added[hash(new'[i])] == SpotOf(base, new', i)
  {
    hide NewPieces, Sequences.Join, SpotOf;
  }

  lemma NothingLaid(known: set<Hash>, base: Vec, hash: Vec -> Hash)
    ensures Laid(known, base, base, hash, [], [], map[])
  {}

  lemma LaidKnown(known: set<Hash>, base: Vec, file: Vec, hash: Vec -> Hash, pieces: seq<Vec>, hashes: seq<Hash>,
                  added: map<Hash, Spot>, piece: Vec)
    requires Laid(known, base, file, hash, pieces, hashes, added) && (hash(piece) in known || hash(piece) in added)
    ensures Laid(known, base, file, hash, pieces + [piece], hashes + [hash(piece)], added)
  {
    assert (pieces + [piece])[..|pieces|] == pieces;
    assert Digests(hash, pieces + [piece]) == Digests(hash, pieces) + [hash(piece)];
  }

  lemma LaidNew(known: set<Hash>, base: Vec, file: Vec, hash: Vec -> Hash, pieces: seq<Vec>, hashes: seq<Hash>,
                added: map<Hash, Spot>, piece: Vec)
    requires Laid(known, base, file, hash, pieces, hashes, added)
    requires hash(piece) !in known && hash(piece) !in added
    ensures Laid(known, base, file + piece, hash, pieces + [piece], hashes + [hash(piece)],
                 added[hash(piece) := Spot(|file|, |piece|)])
  {
    var before := NewPieces(known, hash, pieces);
    hide Digests, SpotOf, Sequences.Join;
    NewPieceNext(known, hash, pieces, piece);
    DigestsNext(hash, pieces, piece);
    Sequences.JoinSnoc(before, piece);
    SpotsMore(base, hash, before, added, piece);
    hide NewPieces, Spots;
  }

  lemma SpotsMore(base: Vec, hash: Vec -> Hash, before: seq<Vec>, added: map<Hash, Spot>, piece: Vec)
    requires Spots(base, hash, before, added) && hash(piece) !in added
    ensures Spots(base, hash, before + [piece],
                  added[hash(piece) := Spot(|base| + |Sequences.Join(before)|, |piece|)])
  {
    DigestsNext(hash, before, piece);
    SpotsNext(base, before, piece);
    hide Sequences.Join, SpotOf;
    forall i: nat | i < |before|
      ensures hash(before[i]) in Digests(hash, before)
    {
      assert Digests(hash, before)[i] == hash(before[i]);
    }
    hide Digests;
  }

  lemma NewPieceNext(known: set<Hash>, hash: Vec -> Hash, pieces: seq<Vec>, piece: Vec)
    requires hash(piece) !in known && hash(piece) !in Digests(hash, NewPieces(known, hash, pieces))
    ensures NewPieces(known, hash, pieces + [piece]) == NewPieces(known, hash, pieces) + [piece]
  {
    assert (pieces + [piece])[..|pieces|] == pieces;
  }

  lemma SpotsNext(base: Vec, before: seq<Vec>, piece: Vec)
    ensures forall i: nat :: i < |before| ==> SpotOf(base, before + [piece], i) == SpotOf(base, before, i)
    ensures SpotOf(base, before + [piece], |before|) == Spot(|base| + |Sequences.Join(before)|, |piece|)
  {
    hide Sequences.Join;
    forall i: nat | i < |before|
      ensures SpotOf(base, before + [piece], i) == SpotOf(base, before, i)
    {
      assert (before + [piece])[..i] == before[..i];
    }
    assert (before + [piece])[..|before|] == before;
  }

  // ---------------------------------------------------------------- what a commit relies on

  /** Every piece is known to the index or lies in the staging file where added says. */
  ghost predicate Staged(known: set<Hash>, file: Vec, hash: Vec -> Hash, pieces: seq<Vec>, hashes: seq<Hash>,
                         added: map<Hash, Spot>, stored: map<Hash, Vec>)
  {
    |hashes| == |pieces|
        && (forall i :: 0 <= i < |pieces| ==>
              hashes[i] == hash(pieces[i]) && (hashes[i] in known || hashes[i] in added))
    && added.Keys == stored.Keys
    && forall h :: h in added ==>
         h !in known && hash(stored[h]) == h && stored[h] != [] && added[h].size == |stored[h]|
             && InRaw(file, added[h].offset, stored[h])
  }

  lemma NothingStaged(known: set<Hash>, file: Vec, hash: Vec -> Hash)
    ensures Staged(known, file, hash, [], [], map[], map[])
  {}

  lemma StagedKnown(known: set<Hash>, file: Vec, hash: Vec -> Hash, pieces: seq<Vec>, hashes: seq<Hash>,
                    added: map<Hash, Spot>, stored: map<Hash, Vec>, piece: Vec)
    requires Staged(known, file, hash, pieces, hashes, added, stored) && (hash(piece) in known || hash(piece) in added)
    ensures Staged(known, file, hash, pieces + [piece], hashes + [hash(piece)], added, stored)
  {
    hide InRaw;
  }

  lemma StagedNew(known: set<Hash>, file: Vec, hash: Vec -> Hash, pieces: seq<Vec>, hashes: seq<Hash>,
                  added: map<Hash, Spot>, stored: map<Hash, Vec>, piece: Vec)
    requires Staged(known, file, hash, pieces, hashes, added, stored)
    requires hash(piece) !in known && hash(piece) !in added && piece != []
    ensures Staged(known, file + piece, hash, pieces + [piece], hashes + [hash(piece)],
                   added[hash(piece) := Spot(|file|, |piece|)],
                   stored[hash(piece) := piece])
  {
    hide InRaw;
    assert InRaw(file + piece, |file|, piece) by { RawEnd(file, piece); }
    forall h | h in added
      ensures InRaw(file + piece, added[h].offset, stored[h])
    {
      RawGrows(file, file + piece, added[h].offset, stored[h]);
    }
  }

  lemma RawEnd(file: Vec, piece: Vec)
    ensures InRaw(file + piece, |file|, piece)
  {}

  lemma StagedParts(known: set<Hash>, file: Vec, hash: Vec -> Hash, pieces: seq<Vec>, hashes: seq<Hash>,
                    added: map<Hash, Spot>, stored: map<Hash, Vec>)
    requires Staged(known, file, hash, pieces, hashes, added, stored)
    ensures |hashes| == |pieces|
    ensures forall i :: 0 <= i < |hashes| ==> hashes[i] == hash(pieces[i]) && (hashes[i] in known || hashes[i] in added)
  {
    hide InRaw;
  }

  lemma StagedSpot(known: set<Hash>, file: Vec, hash: Vec -> Hash, pieces: seq<Vec>, hashes: seq<Hash>,
                   added: map<Hash, Spot>, stored: map<Hash, Vec>, h: Hash)
    requires Staged(known, file, hash, pieces, hashes, added, stored) && h in added
    ensures h in stored && added[h].size == |stored[h]|
  {
    hide InRaw;
  }

  // ---------------------------------------------------------------- the state afterwards

  /** Chunk rows stay but for their reference counts. */
  ghost predicate RowsKept(a: map<Hash, ChunkRow>, b: map<Hash, ChunkRow>) {
    forall h :: h in a ==> h in b && b[h] == a[h].(refcount := b[h].refcount)
  }

  /** Batch rows stay but for their live bytes and, in open batches, their raw bytes. */
  ghost predicate BatchesKept(a: map<BatchId, BatchRow>, b: map<BatchId, BatchRow>) {
    forall id :: id in a ==>
      id in b && b[id] == a[id].(liveBytes := b[id].liveBytes,
                                 rawBytes := if a[id].stage.Open? then b[id].rawBytes else a[id].rawBytes)
  }

  /** Nothing goes, and no chunk moves. */
  ghost predicate Grown(a: State, b: State) {
    RowsKept(a.chunks, b.chunks) && BatchesKept(a.batches, b.batches) && b.batches.Keys == a.batches.Keys
    && b.objects == a.objects
  }

  lemma GrownSame(a: State, b: State)
    requires b.chunks == a.chunks && b.batches == a.batches && b.objects == a.objects
    ensures Grown(a, b)
  {}

  lemma GrownTrans(a: State, b: State, c: State)
    requires Grown(a, b) && Grown(b, c)
    ensures Grown(a, c)
  {}

  lemma InsertGrown(st: State, h: Hash, b: BatchId, offset: nat, data: Vec)
    requires h !in st.chunks && b in st.batches && st.batches[b].stage.Open?
    ensures Grown(st, InsertChunk(st, h, b, offset, data))
  {}

  lemma AddRefGrown(st: State, f: FileId, h: Hash)
    requires f in st.lists && h in st.chunks && st.chunks[h].batch in st.batches
    ensures Grown(st, AddRef(st, f, h))
  {}

  lemma DropRefGrown(st: State, f: FileId)
    requires f in st.lists && st.lists[f] != []
    requires var h := st.lists[f][|st.lists[f]| - 1];
             h in st.chunks && st.chunks[h].refcount > 0 && st.chunks[h].batch in st.batches
    ensures Grown(st, DropRef(st, f))
  {}

  function FileOf(raw: map<BatchId, Vec>, t: BatchId): Vec {
    if t in raw then raw[t] else []
  }

  /** From a state in which batch t is open and has a staging file: the file is recorded. */
  ghost predicate Recorded(a: State, b: State, hash: Vec -> Hash, f: FileId, pieces: seq<Vec>, t: BatchId) {
    var new' := NewPieces(a.chunks.Keys, hash, pieces);
    f in b.lists && b.lists[f] == Digests(hash, pieces) && Grown(a, b)
    && b.raw == a.raw[t := Grows(a.chunks.Keys, FileOf(a.raw, t), hash, pieces)]
    && (forall h :: h in b.chunks <==> h in a.chunks || h in Digests(hash, new'))
    && forall i :: 0 <= i < |new'| ==> RowAt(b.chunks, hash(new'[i]), t, SpotOf(FileOf(a.raw, t), new', i))
  }

  /** It stopped before the transaction. */
  ghost predicate Halted(a: State, b: State, hash: Vec -> Hash, pieces: seq<Vec>, t: BatchId, j: nat) {
    j <= |pieces| && b == a.(raw := a.raw[t := Grows(a.chunks.Keys, FileOf(a.raw, t), hash, pieces[..j])])
  }

  lemma HaltedAt(a: State, b: State, hash: Vec -> Hash, pieces: seq<Vec>, t: BatchId)
    requires t in a.raw && t in b.raw && b == a.(raw := a.raw[t := b.raw[t]])
    requires exists j :: 0 <= j <= |pieces| && b.raw[t] == Grows(a.chunks.Keys, a.raw[t], hash, pieces[..j])
    ensures exists j :: Halted(a, b, hash, pieces, t, j)
  {
    hide Grows;
    var j: nat :| j <= |pieces| && b.raw[t] == Grows(a.chunks.Keys, a.raw[t], hash, pieces[..j]);
    assert Halted(a, b, hash, pieces, t, j);
  }

  lemma RecordedFrom(a: State, m: State, b: State, hash: Vec -> Hash, f: FileId, pieces: seq<Vec>, hashes: seq<Hash>,
                     added: map<Hash, Spot>, t: BatchId)
    requires t in a.raw && t in m.raw && m == a.(raw := a.raw[t := m.raw[t]]) && b.raw == m.raw
    requires Laid(a.chunks.Keys, a.raw[t], m.raw[t], hash, pieces, hashes, added)
    requires f in b.lists && b.lists[f] == hashes && Grown(m, b) && b.chunks.Keys == m.chunks.Keys + added.Keys
    requires forall h :: h in added ==> RowAt(b.chunks, h, t, added[h])
    ensures Recorded(a, b, hash, f, pieces, t)
  {
    LaidGrows(a.chunks.Keys, a.raw[t], m.raw[t], hash, pieces, hashes, added);
    hide Laid, Grows, NewPieces, RowAt, SpotOf;
  }

  /** Batch t is the open batch with the smallest id, or a new one if there is none. */
  ghost predicate FirstOpen(batches: map<BatchId, BatchRow>, t: BatchId) {
    (t in batches ==> batches[t].stage.Open?)
    && forall id :: id in batches && batches[id].stage.Open? ==> t in batches && t <= id
  }

  ghost function WithOpen(batches: map<BatchId, BatchRow>, t: BatchId): map<BatchId, BatchRow> {
    if t in batches then batches else batches[t := EMPTY_BATCH]
  }

  /** File f is the list of these pieces. The staging file of batch t has grown by exactly the pieces that were not
      known, each once, and their rows say where; nothing else changed but counts. */
  ghost predicate Ingested(a: State, b: State, hash: Vec -> Hash, f: FileId, pieces: seq<Vec>, t: BatchId) {
    var new' := NewPieces(a.chunks.Keys, hash, pieces);
    f in b.lists && b.lists[f] == Digests(hash, pieces)
    && b.raw == a.raw[t := Grows(a.chunks.Keys, FileOf(a.raw, t), hash, pieces)] && b.objects == a.objects
    && RowsKept(a.chunks, b.chunks) && BatchesKept(a.batches, b.batches)
    && FirstOpen(a.batches, t) && b.batches.Keys == a.batches.Keys + {t} && b.batches[t].stage.Open?
    && (forall h :: h in b.chunks <==> h in a.chunks || h in Digests(hash, new'))
    && forall i :: 0 <= i < |new'| ==> RowAt(b.chunks, hash(new'[i]), t, SpotOf(FileOf(a.raw, t), new', i))
  }

  /** What holds since batch t was opened holds since before. */
  lemma IngestedSince(a: State, m: State, b: State, hash: Vec -> Hash, f: FileId, pieces: seq<Vec>, t: BatchId)
    requires Readied(a, m, t)
    ensures Recorded(m, b, hash, f, pieces, t) ==> Ingested(a, b, hash, f, pieces, t)
    ensures (exists j :: Halted(m, b, hash, pieces, t, j)) ==> exists j :: Interrupted(a, b, hash, pieces, t, j)
  {
    hide *;
    if Recorded(m, b, hash, f, pieces, t) {
      RecordedSince(a, m, b, hash, f, pieces, t);
    }
    if exists j :: Halted(m, b, hash, pieces, t, j) {
      var j :| Halted(m, b, hash, pieces, t, j);
      HaltedSince(a, m, b, hash, pieces, t, j);
    }
  }

  /** Batch t was made ready to be appended to. */
  ghost predicate Readied(a: State, m: State, t: BatchId) {
    FirstOpen(a.batches, t) && m.batches == WithOpen(a.batches, t) && m.raw == a.raw[t := FileOf(a.raw, t)]
    && m.chunks == a.chunks && m.refs == a.refs && m.objects == a.objects && m.lists == a.lists
  }

  lemma ReadiedIs(a: State, m: State, t: BatchId)
    requires FirstOpen(a.batches, t) && m.batches == WithOpen(a.batches, t) && m.raw == a.raw[t := FileOf(a.raw, t)]
    requires m.chunks == a.chunks && m.refs == a.refs && m.objects == a.objects && m.lists == a.lists
    ensures Readied(a, m, t)
  {
    hide FirstOpen, WithOpen, FileOf;
  }

  lemma RecordedSince(a: State, m: State, b: State, hash: Vec -> Hash, f: FileId, pieces: seq<Vec>, t: BatchId)
    requires Readied(a, m, t) && Recorded(m, b, hash, f, pieces, t)
    ensures Ingested(a, b, hash, f, pieces, t)
  {
    hide Grows, NewPieces, RowAt, SpotOf, Digests;
  }

  lemma HaltedSince(a: State, m: State, b: State, hash: Vec -> Hash, pieces: seq<Vec>, t: BatchId, j: nat)
    requires Readied(a, m, t) && Halted(m, b, hash, pieces, t, j)
    ensures Interrupted(a, b, hash, pieces, t, j)
  {
    hide Grows, FirstOpen, WithOpen;
  }

  ghost predicate RowAt(chunks: map<Hash, ChunkRow>, h: Hash, t: BatchId, at: Spot) {
    h in chunks && chunks[h] == ChunkRow(at.size, t, at.offset, chunks[h].refcount)
  }

  lemma RowsStayAt(a: State, b: State, t: BatchId, added: map<Hash, Spot>)
    requires Grown(a, b) && forall h :: h in added ==> RowAt(a.chunks, h, t, added[h])
    ensures forall h :: h in added ==> RowAt(b.chunks, h, t, added[h])
  {}

  lemma RowInserted(st: State, h: Hash, b: BatchId, data: Vec, added: map<Hash, Spot>, rest: set<Hash>)
    requires b in st.batches && h in added && added[h].size == |data| && h in rest && h !in st.chunks
    requires forall g :: g in added && g !in rest ==> RowAt(st.chunks, g, b, added[g])
    ensures forall g :: g in added && g !in rest - {h} ==>
              RowAt(InsertChunk(st, h, b, added[h].offset, data).chunks, g, b, added[g])
  {}

  /** The operation stopped before the transaction: only the staging file of batch t may have grown, by the new
      pieces among the first j. */
  ghost predicate Interrupted(a: State, b: State, hash: Vec -> Hash, pieces: seq<Vec>, t: BatchId, j: nat) {
    b.chunks == a.chunks && b.refs == a.refs && b.objects == a.objects && b.lists == a.lists
    && b.batches == WithOpen(a.batches, t) && FirstOpen(a.batches, t) && j <= |pieces|
    && b.raw == a.raw[t := Grows(a.chunks.Keys, FileOf(a.raw, t), hash, pieces[..j])]
  }
}
