/** Writing a stripe: shards land on disks, then rows are committed. */
module StoreWriting {
  import opened Wrappers
  import opened LinearAlgebra
  import opened Codec
  import opened Cauchy
  import opened StoreTypes
  import opened StoreState
  import opened StoreSteps
  import opened StoreViews
  import opened Placement
  import opened StoreReading

  function HeaderFor(row: StripeRow, s: StripeId, i: nat, payload: Vec, key: Key, hash: Vec -> Checksum): ShardHeader {
    ShardHeader(i, row.k, row.m, s, |payload|, hash(payload), row.seqno, row.offset, row.len, key)
  }

  /** A file that holds this payload under a matching header verifies. */
  ghost predicate Holding(files: map<Path, Slot>, hash: Vec -> Checksum, p: Path, payload: Vec) {
    p in files && files[p].File? && files[p].payload == payload && files[p].header.Some?
    && var h := files[p].header.value;
    h.stripe == p.stripe && h.index == p.idx && h.length == |payload| && h.checksum == hash(payload)
  }

  lemma HoldingReads(v: View, hash: Vec -> Checksum, s: StripeId, i: nat, d: DiskId, payload: Vec)
    requires Holding(v.files, hash, Path(d, s, i), payload) && d in v.disks && Readable(v.disks[d].status)
    requires ShardKey(s, i) in v.shards && v.shards[ShardKey(s, i)] == ShardRow(Some(d), Some(hash(payload)), Fine)
    ensures v.Read(hash, s, i) == Some(payload)
  {}

  /** Rows for shards 0..n of a stripe: those in landed are on their disks, the others missing. */
  ghost predicate Landed(rows: map<ShardKey, ShardRow>, encoded: Matrix, at: seq<Option<DiskId>>, landed: set<nat>,
                         n: nat, files: map<Path, Slot>, written: set<Path>, s: StripeId, hash: Vec -> Checksum)
  {
    |encoded| == |at| && n <= |at| && (forall i :: i in landed ==> i < n)
    && (forall key :: key in rows ==> key.stripe == s && key.idx < n)
    && (forall i: nat :: i < n ==>
          ShardKey(s, i) in rows && LandedRow(rows, encoded, at, landed, i, files, written, s, hash))
  }

  ghost predicate LandedRow(rows: map<ShardKey, ShardRow>, encoded: Matrix, at: seq<Option<DiskId>>, landed: set<nat>,
                            i: nat, files: map<Path, Slot>, written: set<Path>, s: StripeId, hash: Vec -> Checksum)
    requires i < |at| && |encoded| == |at| && ShardKey(s, i) in rows
  {
    if i in landed then
      at[i].Some? && rows[ShardKey(s, i)] == ShardRow(at[i], Some(hash(encoded[i])), Fine)
      && Path(at[i].value, s, i) in written && Holding(files, hash, Path(at[i].value, s, i), encoded[i])
    else
      rows[ShardKey(s, i)] == ShardRow(None, Some(hash(encoded[i])), Missing)
  }

  /** Each row names the disk of its slot, or none. */
  ghost predicate RowsAt(shards: map<ShardKey, ShardRow>, s: StripeId, at: seq<Option<DiskId>>) {
    forall i: nat :: i < |at| ==>
      ShardKey(s, i) in shards && (shards[ShardKey(s, i)].disk == at[i] || shards[ShardKey(s, i)].disk == None)
  }

  /** The rows of the stripe name disks that were chosen among these and turned by its id. */
  ghost predicate LaidOut(disks: map<DiskId, Disk>, shards: map<ShardKey, ShardRow>, s: StripeId, n: nat) {
    exists at :: Placed(at, disks, n, {}) && TurnedFor(at, n, s) && RowsAt(shards, s, at)
  }

  lemma LaidOutFrom(disks: map<DiskId, Disk>, shards: map<ShardKey, ShardRow>, s: StripeId, n: nat,
                    at: seq<Option<DiskId>>)
    requires Placed(at, disks, n, {}) && TurnedFor(at, n, s) && RowsAt(shards, s, at)
    ensures LaidOut(disks, shards, s, n)
  {
    hide Placed, TurnedFor, RowsAt;
  }

  lemma LandedAt(shards: map<ShardKey, ShardRow>, rows: map<ShardKey, ShardRow>, encoded: Matrix,
                 at: seq<Option<DiskId>>, landed: set<nat>, files: map<Path, Slot>, written: set<Path>, s: StripeId,
                 hash: Vec -> Checksum)
    requires Landed(rows, encoded, at, landed, |at|, files, written, s, hash)
    ensures RowsAt(shards + rows, s, at)
  {
    hide Holding;
  }

  lemma LandedNext(rows: map<ShardKey, ShardRow>, encoded: Matrix, at: seq<Option<DiskId>>, landed: set<nat>, n: nat,
                   files: map<Path, Slot>, written: set<Path>, s: StripeId, hash: Vec -> Checksum, ok: bool,
                   after: map<Path, Slot>, noted: set<Path>)
    requires Landed(rows, encoded, at, landed, n, files, written, s, hash) && n < |at| && written <= noted
    requires forall p: Path :: p.idx != n && p in files ==> p in after && after[p] == files[p]
    requires ok ==>
               at[n].Some? && Path(at[n].value, s, n) in noted
                   && Holding(after, hash, Path(at[n].value, s, n), encoded[n])
    ensures var row := if ok then ShardRow(at[n], Some(hash(encoded[n])), Fine)
                       else ShardRow(None, Some(hash(encoded[n])), Missing);
            Landed(rows[ShardKey(s, n) := row], encoded, at, if ok then landed + {n} else landed, n + 1, after, noted,
                   s, hash)
  {
    var row := if ok then ShardRow(at[n], Some(hash(encoded[n])), Fine)
               else ShardRow(None, Some(hash(encoded[n])), Missing);
    var rows', landed' := rows[ShardKey(s, n) := row], if ok then landed + {n} else landed;
    forall i: nat | i < n
      ensures LandedRow(rows', encoded, at, landed', i, after, noted, s, hash)
    {
      assert LandedRow(rows, encoded, at, landed, i, files, written, s, hash);
      if i in landed {
        HoldingKept(files, after, hash, Path(at[i].value, s, i), encoded[i]);
      }
    }
  }

  lemma HoldingKept(a: map<Path, Slot>, b: map<Path, Slot>, hash: Vec -> Checksum, p: Path, payload: Vec)
    requires Holding(a, hash, p, payload) && p in b && b[p] == a[p]
    ensures Holding(b, hash, p, payload)
  {}

  lemma SameFiles(files: map<Path, Slot>, touched: set<StripeId>)
    ensures FilesOutside(files, files, touched)
  {}

  lemma HeaderHolds(files: map<Path, Slot>, row: StripeRow, s: StripeId, i: nat, payload: Vec, key: Key,
                    hash: Vec -> Checksum, d: DiskId)
    ensures var h := HeaderFor(row, s, i, payload, key, hash);
            h.stripe == s && h.index == i
            && Holding(files[Path(d, s, i) := File(Some(h), payload)], hash, Path(d, s, i), payload)
  {}

  lemma OneFile(a: map<Path, Slot>, b: map<Path, Slot>, s: StripeId, i: nat, d: DiskId, slot: Slot)
    requires b == a || b == a[Path(d, s, i) := slot]
    ensures FilesOutside(a, b, {s}) && forall p: Path :: p.idx != i && p in a ==> p in b && b[p] == a[p]
  {}

  lemma LessFile(a: map<Path, Slot>, b: map<Path, Slot>, p: Path, touched: set<StripeId>)
    requires p.stripe in touched && (b == a || b == a - {p})
    ensures FilesOutside(a, b, touched)
  {}

  /** The files of the landed shards. */
  function LandedPaths(at: seq<Option<DiskId>>, landed: set<nat>, s: StripeId): (r: set<Path>)
    requires forall i :: i in landed ==> i < |at| && at[i].Some?
    ensures forall p :: p in r <==> p.stripe == s && p.idx in landed && at[p.idx] == Some(p.disk)
  {
    set i | i in landed :: Path(at[i].value, s, i)
  }

  lemma FreshId(used: set<StripeId>)
    ensures exists s: StripeId :: s !in used
  {
    if forall s: StripeId :: s in used {
      SubsetSize(Range(|used| + 1), used);
    }
  }

  lemma NothingLanded(encoded: Matrix, at: seq<Option<DiskId>>, files: map<Path, Slot>, written: set<Path>, s: StripeId,
                      hash: Vec -> Checksum)
    requires |encoded| == |at|
    ensures Landed(map[], encoded, at, {}, 0, files, written, s, hash)
  {}

  // ---------------------------------------------------------------- a stripe being written

  /** b differs from a only in stripe s, which a does not know. */
  ghost predicate OnlyStripe(a: State, b: State, s: StripeId) {
    s !in a.stripes && s !in a.content
    && (forall t :: t in a.content ==> t in b.content && b.content[t] == a.content[t])
    && (forall t :: t in a.stripes ==> t in b.stripes && b.stripes[t] == a.stripes[t])
    && RowsOutside(a.shards, b.shards, {s})
  }

  lemma OnlyStripeKept(a: State, b: State, hash: Vec -> Checksum, s: StripeId)
    requires OnlyStripe(a, b, s)
    ensures AllKept(a, b, hash)
  {
    hide StripeOk;
    forall t | t in a.stripes && t in a.content
      ensures StripeKept(a, b, hash, t)
    {
      RowsCarriedKept(a, b, hash, t);
    }
  }

  /** At least need shards verify, and no two rows name the same disk. */
  ghost predicate WellPlaced(v: View, hash: Vec -> Checksum, s: StripeId, n: nat, need: nat) {
    |v.Good(hash, s, n)| >= need && Apart(v, s, n)
  }

  /** With need good shards on different disks, any need - k disks may go. */
  lemma WellPlacedSurvives(before: View, after: View, hash: Vec -> Checksum, s: StripeId, n: nat, k: nat, need: nat,
                           lost: set<DiskId>)
    requires WellPlaced(before, hash, s, n, need) && DisksLost(before, after, lost) && |lost| + k <= need
    ensures |after.Good(hash, s, n)| >= k
  {
    hide Apart, DisksLost, View.Read;
    SurvivesLosses(before, after, hash, s, n, lost);
  }

  lemma LandedGood(v: View, rows: map<ShardKey, ShardRow>, encoded: Matrix, at: seq<Option<DiskId>>, landed: set<nat>,
                   written: set<Path>, s: StripeId, hash: Vec -> Checksum, i: nat)
    requires Landed(rows, encoded, at, landed, |at|, v.files, written, s, hash) && i in landed
    requires forall d :: Some(d) in at ==> d in v.disks && Readable(v.disks[d].status)
    requires forall key :: key in rows ==> key in v.shards && v.shards[key] == rows[key]
    ensures v.Read(hash, s, i) == Some(encoded[i])
  {
    hide Holding, View.Read;
    assert LandedRow(rows, encoded, at, landed, i, v.files, written, s, hash);
    assert at[i] in at;
    HoldingReads(v, hash, s, i, at[i].value, encoded[i]);
  }

  lemma LandedWellPlaced(v: View, rows: map<ShardKey, ShardRow>, encoded: Matrix, at: seq<Option<DiskId>>,
                         landed: set<nat>,
                         written: set<Path>, s: StripeId, hash: Vec -> Checksum)
    requires Landed(rows, encoded, at, landed, |at|, v.files, written, s, hash) && DistinctSlots(at)
    requires forall d :: Some(d) in at ==> d in v.disks && Readable(v.disks[d].status)
    requires forall key :: key in rows ==> key in v.shards && v.shards[key] == rows[key]
    ensures WellPlaced(v, hash, s, |at|, |landed|)
  {
    hide View.Read, Holding;
    var good := v.Good(hash, s, |at|);
    forall i | i in landed
      ensures i in good
    {
      LandedGood(v, rows, encoded, at, landed, written, s, hash, i);
    }
    SubsetSize(landed, good.Keys);
    forall i: nat, j: nat | i < j < |at| && rows[ShardKey(s, i)].disk.Some?
      ensures rows[ShardKey(s, i)].disk != rows[ShardKey(s, j)].disk
    {
      assert LandedRow(rows, encoded, at, landed, i, v.files, written, s, hash);
      assert LandedRow(rows, encoded, at, landed, j, v.files, written, s, hash);
    }
  }

  /** The landed rows of a stripe's encoding are the rows it commits with. */
  lemma LandedNewRows(st: State, hash: Vec -> Checksum, s: StripeId, rows: map<ShardKey, ShardRow>, encoded: Matrix,
                      at: seq<Option<DiskId>>, landed: set<nat>, files: map<Path, Slot>)
    requires s in st.stripes && s in st.content && Fits(st.stripes[s], st.content[s])
    requires Landed(rows, encoded, at, landed, |at|, files, st.written, s, hash)
    requires var row := st.stripes[s];
             |at| == row.k + row.m
                 && encoded == Encoded(row.k, row.m, Codec.Shards(st.content[s], row.k, row.size), row.size)
    ensures NewRows(st, hash, s, rows)
  {
    hide Holding, Encoded, Codec.Shards;
    forall i: nat | i < |at|
      ensures ShardKey(s, i) in rows
              && rows[ShardKey(s, i)].checksum == Some(hash(ShardOf(st.stripes[s], st.content[s], i)))
      ensures rows[ShardKey(s, i)].disk.Some? ==> Path(rows[ShardKey(s, i)].disk.value, s, i) in st.written
    {
      assert LandedRow(rows, encoded, at, landed, i, files, st.written, s, hash);
    }
  }

  lemma SameStays(rows: map<ShardKey, ShardRow>)
    ensures RowsStay(rows, rows)
  {}

  /** Stripe ids are not reused: a stripe is an old one, or a new one of object o. */
  ghost predicate NewStripes(a: State, b: State, o: ObjectId) {
    a.used <= b.used
    && forall s :: s in b.stripes ==>
         if s in a.used then s in a.stripes && SameRow(a.stripes[s], b.stripes[s]) else b.stripes[s].owner == o
  }

  lemma NewStripesSame(a: State, hash: Vec -> Checksum, o: ObjectId)
    requires Consistent(a, hash)
    ensures NewStripes(a, a, o)
  {
    hide ObjectOk, KeysUnique, ShardsOk;
  }

  lemma NewStripesTrans(a: State, b: State, c: State, o: ObjectId)
    requires NewStripes(a, b, o) && NewStripes(b, c, o)
    ensures NewStripes(a, c, o)
  {}

  /** The next position of an object that is still being written. */
  ghost predicate NextPlace(st: State, o: ObjectId, seqno: nat, offset: nat) {
    o in st.objects && !st.objects[o].committed && o in st.layout && seqno == |st.layout[o]|
    && (forall i :: 0 <= i < |st.layout[o]| ==> st.layout[o][i] in st.content && st.layout[o][i] in st.used)
    && offset == |Flatten(st.layout[o], st.content)|
  }

  /** Stripe s was added, holding data; unless staged it is the last stripe of its object. */
  ghost predicate Wrote(a: State, b: State, hash: Vec -> Checksum, s: StripeId, o: ObjectId, seqno: nat, offset: nat,
                        data: Vec, k: nat, m: nat, staged: bool)
  {
    s !in a.used && s in b.used && s in b.stripes && b.objects == a.objects && b.content == a.content[s := data]
    && b.stripes == a.stripes[s := b.stripes[s]] && StripeOk(b.stripes[s], data, s, b.shards, hash)
    && b.stripes[s].owner == o && b.stripes[s].seqno == seqno && b.stripes[s].offset == offset
    && b.stripes[s].k == k && b.stripes[s].m == m && b.stripes[s].state == (if staged then Pending else Committed)
    && (if staged then b.layout == a.layout else o in a.layout && b.layout == a.layout[o := a.layout[o] + [s]])
  }

  lemma BegunParts(st: State, s: StripeId, row: StripeRow, data: Vec)
    requires s !in st.used && row.state.Pending? && ValidParameters(row.k, row.m)
             && |data| == row.len <= row.k * row.size
    ensures var b := InsertStripe(st, s, row, data);
            s in b.stripes && b.stripes[s] == row && s in b.content && b.content[s] == data && b.objects == st.objects
            && b.layout == st.layout && b.shards == st.shards && Fits(row, data)
    ensures NextPlace(st, row.owner, row.seqno, row.offset) ==> NextStripe(InsertStripe(st, s, row, data), s)
  {
    var b := InsertStripe(st, s, row, data);
    if NextPlace(st, row.owner, row.seqno, row.offset) {
      var ids := st.layout[row.owner];
      forall i | 0 <= i < |ids|
        ensures ids[i] in b.content && b.content[ids[i]] == st.content[ids[i]] && ids[i] != s
      {}
      FlattenSame(ids, st.content, b.content);
    }
  }

  lemma BegunTables(st: State, s: StripeId, row: StripeRow, data: Vec)
    requires row.state.Pending?
    ensures InsertStripe(st, s, row, data)
            == st.(stripes := st.stripes[s := row], content := st.content[s := data], used := st.used + {s})
    ensures DeleteStripes(InsertStripe(st, s, row, data), {s}).stripes == StripesWithout(st.stripes[s := row], {s})
  {}

  lemma PlacedReadable(at: seq<Option<DiskId>>, disks: map<DiskId, Disk>, n: nat)
    requires Placed(at, disks, n, {})
    ensures |at| == n && DistinctSlots(at) && forall d :: Some(d) in at ==> d in disks && Readable(disks[d].status)
  {}

  /** After the pending stripe was written, dropped or left behind, nothing else has changed. */
  lemma WroteOnly(a: State, b: State, hash: Vec -> Checksum, s: StripeId, row: StripeRow, data: Vec)
    requires Consistent(a, hash) && s !in a.used && a.content.Keys <= a.used
    requires var mid := InsertStripe(a, s, row, data);
             b.content == mid.content && b.used == mid.used && RowsOutside(mid.shards, b.shards, {s})
             && (b.stripes == mid.stripes || b.stripes == StripesWithout(mid.stripes, {s})
                 || b.stripes == mid.stripes[s := row.(state := Committed)])
    ensures AllKept(a, b, hash) && RowsOutside(a.shards, b.shards, {s}) && a.used <= b.used
    ensures RowsStay(a.shards, b.shards) && NewStripes(a, b, row.owner)
    ensures b.stripes == StripesWithout(InsertStripe(a, s, row, data).stripes, {s}) ==> b.stripes == a.stripes
  {
    hide StripeOk, ObjectOk, KeysUnique;
    assert s !in a.stripes;
    OnlyStripeKept(a, b, hash, s);
  }

  lemma WroteFrom(a: State, b: State, hash: Vec -> Checksum, s: StripeId, row: StripeRow, data: Vec, staged: bool)
    requires s !in a.used && row.state.Pending? && b.objects == a.objects
    requires var mid := InsertStripe(a, s, row, data);
             b.content == mid.content && b.used == mid.used
             && b.stripes == mid.stripes[s := row.(state := if staged then Pending else Committed)]
    requires StripeOk(b.stripes[s], data, s, b.shards, hash)
    requires if staged then b.layout == a.layout
             else row.owner in a.layout && b.layout == a.layout[row.owner := a.layout[row.owner] + [s]]
    ensures Wrote(a, b, hash, s, row.owner, row.seqno, row.offset, data, row.k, row.m, staged)
  {
    hide StripeOk;
  }

  /** Data fits a stripe under the shard cap exactly when it fits k shards of the largest size. */
  lemma CapacityBound(k: nat, length: nat, maxShard: nat)
    requires maxShard > 0
    ensures k > 0 ==> 0 < ShardSizeFor(k, length, Some(maxShard)) <= maxShard
    ensures k > 0 ==> (length <= k * ShardSizeFor(k, length, Some(maxShard)) <==> length <= k * maxShard)
  {
    if k > 0 {
      var size := ShardSizeFor(k, length, Some(maxShard));
      if length <= k * maxShard {
        ShardSizeFits(k, length, Some(maxShard));
      } else {
        MulLe(size, maxShard, k);
      }
      CeilDivCovers(if length == 0 then SHARD_ALIGN else CeilDiv(length, k), SHARD_ALIGN);
      if length > 0 {
        CeilDivCovers(length, k);
      }
    }
  }

  ghost predicate RowsStay(a: map<ShardKey, ShardRow>, b: map<ShardKey, ShardRow>) {
    forall key :: key in a ==> key in b && b[key] == a[key]
  }

  lemma EnoughNeeded(k: nat, m: nat, extra: nat)
    ensures k <= Min(k + m, k + extra) <= k + m
  {}

  lemma SameRowsOutside(shards: map<ShardKey, ShardRow>, touched: set<StripeId>)
    ensures RowsOutside(shards, shards, touched)
  {}

  /** Writing files changes nothing in the tables. */
  lemma WrittenMore(a: State, b: State, hash: Vec -> Checksum, s: StripeId)
    requires Consistent(a, hash) && a.written <= b.written && b == a.(written := b.written)
    ensures Consistent(b, hash) && SameVisible(a, b) && (NextStripe(a, s) ==> NextStripe(b, s))
  {
    assert b == NoteWritten(a, b.written);
    assert NextStripe(a, s) ==> NextStripe(b, s) by { hide Consistent, SameVisible, NoteWritten; }
    NoteWrittenStep(a, hash, b.written);
    hide Consistent, SameVisible, NextStripe;
  }

  lemma LandedBounds(rows: map<ShardKey, ShardRow>, encoded: Matrix, at: seq<Option<DiskId>>, landed: set<nat>,
                     files: map<Path, Slot>, written: set<Path>, s: StripeId, hash: Vec -> Checksum)
    requires Landed(rows, encoded, at, landed, |at|, files, written, s, hash)
    ensures forall i :: i in landed ==> i < |at| && at[i].Some?
    ensures forall key :: key in rows ==> key.stripe == s
  {
    hide Holding;
    forall i | i in landed
      ensures i < |at| && at[i].Some?
    {
      assert LandedRow(rows, encoded, at, landed, i, files, written, s, hash);
    }
  }

  lemma LandedBelow(rows: map<ShardKey, ShardRow>, encoded: Matrix, at: seq<Option<DiskId>>, landed: set<nat>, n: nat,
                    files: map<Path, Slot>, written: set<Path>, s: StripeId, hash: Vec -> Checksum)
    requires Landed(rows, encoded, at, landed, n, files, written, s, hash)
    ensures forall i :: i in landed ==> i < n
  {
    hide Holding;
  }

  lemma FinishedOk(st: State, hash: Vec -> Checksum, s: StripeId, rows: map<ShardKey, ShardRow>)
    requires s in st.stripes && s in st.content && NewRows(st, hash, s, rows)
    ensures StripeOk(st.stripes[s], st.content[s], s, st.shards + rows, hash)
    ensures StripeOk(st.stripes[s].(state := Committed), st.content[s], s, st.shards + rows, hash)
  {
    NewRowsOk(st, hash, s, rows);
    hide *;
    StripeOkSameRow(st.stripes[s], st.stripes[s].(state := Committed), st.content[s], s, st.shards + rows, hash);
  }

  lemma DeletedParts(st: State, ids: set<StripeId>)
    ensures DeleteStripes(st, ids)
            == st.(stripes := StripesWithout(st.stripes, ids), shards := ShardsWithout(st.shards, ids))
  {}

  lemma DeleteParts(a: State, b: State, s: StripeId)
    requires b == a.(written := b.written)
    ensures DeleteStripes(b, {s}).stripes == DeleteStripes(a, {s}).stripes && DeleteStripes(b, {s}).layout == a.layout
    ensures RowsOutside(a.shards, DeleteStripes(b, {s}).shards, {s})
  {}

  lemma FinishParts(st: State, s: StripeId, rows: map<ShardKey, ShardRow>, staged: bool)
    requires s in st.stripes && forall key :: key in rows ==> key.stripe == s
    requires staged || st.stripes[s].owner in st.layout
    ensures var b := if staged then StageStripe(st, rows) else CommitStripe(st, s, rows);
            b.shards == st.shards + rows && RowsOutside(st.shards, b.shards, {s})
            && b.stripes == (if staged then st.stripes else st.stripes[s := st.stripes[s].(state := Committed)])
    ensures staged ==> StageStripe(st, rows).layout == st.layout
    ensures !staged ==> var o := st.stripes[s].owner;
            CommitStripe(st, s, rows).layout == st.layout[o := st.layout[o] + [s]]
  {}

  lemma StillReadable(a: map<DiskId, Disk>, b: map<DiskId, Disk>, at: seq<Option<DiskId>>)
    requires Worn(a, b) && forall d :: Some(d) in at ==> d in a && Readable(a[d].status)
    ensures forall d :: Some(d) in at ==> d in b && Readable(b[d].status)
  {}

  lemma PlacedMore(v: View, hash: Vec -> Checksum, s: StripeId, n: nat, need: nat, less: nat)
    requires WellPlaced(v, hash, s, n, need) && less <= need
    ensures WellPlaced(v, hash, s, n, less)
  {
    hide View.Read;
  }
}
