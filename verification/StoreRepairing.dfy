/** Repair: what rewriting shards keeps and what it restores. */
module StoreRepairing {
  import opened Wrappers
  import opened LinearAlgebra
  import opened Codec
  import opened StoreTypes
  import opened StoreState
  import opened StoreSteps
  import opened StoreViews
  import opened Placement
  import opened StoreReading
  import opened StoreWriting
  import opened DiskErrors

  datatype RepairResult = RepairResult(verified: nat, corrupt: nat, missing: nat, repaired: nat, unrecoverable: bool)

  /** What became of the shards that needed writing: placed on a disk, without a disk to go to,
      or refused by the disk they were to go to. */
  datatype Outcome = Outcome(placed: set<nat>, starved: set<nat>, failed: map<nat, DiskId>)

  /** The rows of these shards name disks, all different. */
  ghost predicate ApartOn(v: View, s: StripeId, on: set<nat>) {
    (forall i :: i in on ==> ShardKey(s, i) in v.shards && v.shards[ShardKey(s, i)].disk.Some?)
    && forall i, j :: i in on && j in on && i != j ==>
         v.shards[ShardKey(s, i)].disk != v.shards[ShardKey(s, j)].disk
  }

  /** The rows of these shards name disks of used. */
  ghost predicate OnDisks(v: View, s: StripeId, on: set<nat>, used: set<DiskId>) {
    forall i :: i in on ==> ShardKey(s, i) in v.shards && v.shards[ShardKey(s, i)].disk.Some?
                            && v.shards[ShardKey(s, i)].disk.value in used
  }

  /** Reads and rows are the same except for some shards of stripe s, and so are the files of other stripes. */
  ghost predicate SameBut(a: View, b: View, hash: Vec -> Checksum, s: StripeId, but: set<nat>) {
    (forall t: StripeId, i: nat :: t != s || i !in but ==> b.Read(hash, t, i) == a.Read(hash, t, i))
    && SameRows(a.shards, b.shards, KeysOf(s, but)) && FilesOutside(a.files, b.files, {s})
  }

  lemma SameElsewhere(a: View, b: View, hash: Vec -> Checksum, s: StripeId, but: set<nat>)
    requires SameBut(a, b, hash, s, but)
    ensures Elsewhere(a, b, {s})
  {
    hide View.Read;
  }

  /** Marking one shard. */
  lemma MarkElsewhere(a: View, b: View, s: StripeId, i: nat)
    requires b.files == a.files && SameRows(a.shards, b.shards, {ShardKey(s, i)})
    ensures Elsewhere(a, b, {s})
  {}

  ghost function KeysOf(s: StripeId, on: set<nat>): (r: set<ShardKey>)
    ensures forall key :: key in r <==> key.stripe == s && key.idx in on
  {
    set i | i in on :: ShardKey(s, i)
  }

  /** Shard i verifies as encoded and lies on a disk outside force. */
  ghost predicate Restored(v: View, hash: Vec -> Checksum, s: StripeId, row: StripeRow, data: Vec, i: nat,
                           force: set<DiskId>) {
    Fits(row, data) && i < row.k + row.m && v.Read(hash, s, i) == Some(ShardOf(row, data, i))
    && ShardKey(s, i) in v.shards && v.shards[ShardKey(s, i)].disk.Some?
       && v.shards[ShardKey(s, i)].disk.value !in force
  }

  /** After the shards of seen were dealt with: those placed are restored, no shard that
      verified is lost, and kept and placed shards are on different disks. */
  ghost predicate Rebuilt(base: View, live: View, hash: Vec -> Checksum, s: StripeId, row: StripeRow, data: Vec,
                          kept: set<nat>, placed: set<nat>, seen: set<nat>, used: set<DiskId>, force: set<DiskId>)
  {
    SameBut(base, live, hash, s, seen) && placed <= seen && kept !! seen
    && SameRows(base.shards, live.shards, KeysOf(s, placed))
    && (forall i :: i in seen && base.Read(hash, s, i).Some? ==> live.Read(hash, s, i) == base.Read(hash, s, i))
    && (forall i :: i in placed ==> Restored(live, hash, s, row, data, i, force))
    && OnDisks(live, s, kept + placed, used)
    && (ApartOn(base, s, kept) ==> ApartOn(live, s, kept + placed))
  }

  /** One shard was rewritten on disk d, or left as it was. */
  ghost predicate Rewrote(a: View, b: View, hash: Vec -> Checksum, s: StripeId, i: nat, payload: Vec,
                          d: Option<DiskId>) {
    SameBut(a, b, hash, s, {i})
    && (a.Read(hash, s, i).Some? ==> b.Read(hash, s, i) == a.Read(hash, s, i))
    && if d.None? then b.shards == a.shards
       else ShardKey(s, i) in a.shards
            && b.shards == a.shards[ShardKey(s, i) := ShardRow(d, Some(hash(payload)), Fine)]
            && b.Read(hash, s, i) == Some(payload)
  }

  /** Files differ at most in the copies of one shard. */
  ghost predicate FilesBut(a: map<Path, Slot>, b: map<Path, Slot>, s: StripeId, i: nat) {
    forall p: Path :: p.stripe != s || p.idx != i ==> (p in a <==> p in b) && (p in a ==> b[p] == a[p])
  }

  lemma OtherReads(a: View, b: View, hash: Vec -> Checksum, s: StripeId, i: nat)
    requires Worn(a.disks, b.disks) && FilesBut(a.files, b.files, s, i)
             && SameRows(a.shards, b.shards, {ShardKey(s, i)})
    ensures SameBut(a, b, hash, s, {i})
  {
    forall t: StripeId, j: nat | t != s || j != i
      ensures b.Read(hash, t, j) == a.Read(hash, t, j)
    {
      OtherRead(a, b, hash, s, i, t, j);
    }
    FilesElsewhere(a.files, b.files, s, i);
    hide View.Read, Worn, FilesBut, FilesOutside;
  }

  lemma FilesElsewhere(a: map<Path, Slot>, b: map<Path, Slot>, s: StripeId, i: nat)
    requires FilesBut(a, b, s, i)
    ensures FilesOutside(a, b, {s})
  {}

  lemma OtherRead(a: View, b: View, hash: Vec -> Checksum, s: StripeId, i: nat, t: StripeId, j: nat)
    requires Worn(a.disks, b.disks) && FilesBut(a.files, b.files, s, i)
             && SameRows(a.shards, b.shards, {ShardKey(s, i)})
    requires t != s || j != i
    ensures b.Read(hash, t, j) == a.Read(hash, t, j)
  {}

  /** A failed rewrite may leave a copy, but not in place of a shard that verified. */
  lemma FailedRewrite(a: View, b: View, hash: Vec -> Checksum, s: StripeId, i: nat, payload: Vec, d: DiskId, slot: Slot)
    requires b.shards == a.shards && Worn(a.disks, b.disks)
    requires b.files == a.files || b.files == a.files[Path(d, s, i) := slot]
    requires a.Read(hash, s, i).Some? ==> a.shards[ShardKey(s, i)].disk != Some(d)
    ensures Rewrote(a, b, hash, s, i, payload, None)
  {
    assert FilesBut(a.files, b.files, s, i);
    OtherReads(a, b, hash, s, i);
    hide SameBut, FilesBut;
  }

  /** After a rewrite the row names the new copy, and the new copy verifies. */
  lemma DoneRewrite(a: View, b: View, hash: Vec -> Checksum, s: StripeId, i: nat, payload: Vec, d: DiskId, slot: Slot,
                    old': Option<DiskId>)
    requires Worn(a.disks, b.disks) && d in b.disks && Readable(b.disks[d].status) && ShardKey(s, i) in a.shards
    requires b.shards == a.shards[ShardKey(s, i) := ShardRow(Some(d), Some(hash(payload)), Fine)]
    requires b.files == a.files[Path(d, s, i) := slot]
             || (old'.Some? && old'.value != d && b.files == a.files[Path(d, s, i) := slot] - {Path(old'.value, s, i)})
    requires Holding(map[Path(d, s, i) := slot], hash, Path(d, s, i), payload)
    requires a.Read(hash, s, i).Some? ==> a.Read(hash, s, i).value == payload
    ensures Rewrote(a, b, hash, s, i, payload, Some(d))
  {
    assert FilesBut(a.files, b.files, s, i);
    HoldingKept(map[Path(d, s, i) := slot], b.files, hash, Path(d, s, i), payload);
    OtherReads(a, b, hash, s, i);
    HoldingReads(b, hash, s, i, d, payload);
    hide SameBut, FilesBut, View.Read, Holding;
  }

  lemma NotRewritten(v: View, hash: Vec -> Checksum, s: StripeId, i: nat, payload: Vec)
    ensures Rewrote(v, v, hash, s, i, payload, None)
  {
    hide View.Read;
  }

  lemma HeaderSlot(row: StripeRow, s: StripeId, i: nat, payload: Vec, key: Key, hash: Vec -> Checksum, d: DiskId)
    ensures var h := HeaderFor(row, s, i, payload, key, hash);
            h.stripe == s && h.index == i
            && Holding(map[Path(d, s, i) := File(Some(h), payload)], hash, Path(d, s, i), payload)
  {}

  lemma TargetReadable(a: map<DiskId, Disk>, b: map<DiskId, Disk>, d: DiskId)
    requires Worn(a, b) && d in a && Writable(a[d].status)
    ensures d in b && Readable(b[d].status)
  {}

  lemma PlacedOne(slots: seq<Option<DiskId>>, disks: map<DiskId, Disk>, exclude: set<DiskId>)
    requires Placed(slots, disks, 1, exclude)
    ensures |slots| == 1 && (slots[0].None? <==> Candidates(disks, exclude) == {})
    ensures slots[0].Some? ==> slots[0].value in Candidates(disks, exclude)
                               && forall c :: c in Candidates(disks, exclude) ==> Before(disks, slots[0].value, c)
  {
    assert |slots| == 1 && slots[0].Some? ==> slots[0] in slots;
    assert slots[0].None? ==> None in slots;
  }

  /** Pointing a row at a written copy of the encoded shard is invisible. */
  lemma RowOfStripe(st: State, hash: Vec -> Checksum, s: StripeId, row: StripeRow, i: nat, d: DiskId)
    requires Consistent(st, hash) && s in st.stripes && s in st.content && SameRow(row, st.stripes[s])
    requires Fits(row, st.content[s]) && i < row.k + row.m && ShardKey(s, i) in st.shards && Path(d, s, i) in st.written
    ensures var b := SetRow(st, ShardKey(s, i), ShardRow(Some(d), Some(hash(ShardOf(row, st.content[s], i))), Fine));
            Consistent(b, hash) && SameVisible(st, b)
  {
    ShardOfSameRow(row, st.stripes[s], st.content[s], i);
    assert Fits(st.stripes[s], st.content[s]);
    hide Consistent, SameVisible, ShardOf;
    SetRowStep(st, hash, ShardKey(s, i), ShardRow(Some(d), Some(hash(ShardOf(row, st.content[s], i))), Fine));
  }

  /** A shard that does not verify, or that lies on a disk to be vacated. */
  ghost predicate NeedsWrite(v: View, hash: Vec -> Checksum, s: StripeId, i: nat, force: set<DiskId>) {
    v.Read(hash, s, i).None? || (v.shards[ShardKey(s, i)].disk.Some? && v.shards[ShardKey(s, i)].disk.value in force)
  }

  /** The shards below n that need writing, in order. */
  ghost predicate IsTodo(todo: seq<nat>, v: View, hash: Vec -> Checksum, s: StripeId, n: nat, force: set<DiskId>) {
    (forall a, b :: 0 <= a < b < |todo| ==> todo[a] < todo[b])
    && (forall i: nat :: i in todo <==> i < n && NeedsWrite(v, hash, s, i, force))
  }

  lemma TodoNext(todo: seq<nat>, v: View, hash: Vec -> Checksum, s: StripeId, n: nat, force: set<DiskId>)
    requires IsTodo(todo, v, hash, s, n, force)
    ensures IsTodo(if NeedsWrite(v, hash, s, n, force) then todo + [n] else todo, v, hash, s, n + 1, force)
  {
    hide NeedsWrite;
    assert forall a :: 0 <= a < |todo| ==> todo[a] in todo;
  }

  /** The survey of shards 0..n: those that verify, and those that need writing. */
  ghost predicate Surveyed(good: map<nat, Vec>, todo: seq<nat>, v: View, hash: Vec -> Checksum, s: StripeId, n: nat,
                           force: set<DiskId>)
  {
    Collected(good, v, hash, s, n) && IsTodo(todo, v, hash, s, n, force)
    && forall j: nat :: j < n && v.Read(hash, s, j).Some? ==> j in good
  }

  lemma SurveyedNext(good: map<nat, Vec>, todo: seq<nat>, v: View, hash: Vec -> Checksum, s: StripeId, n: nat,
                     force: set<DiskId>, r: Option<Vec>, disk: Option<DiskId>)
    requires Surveyed(good, todo, v, hash, s, n, force) && r == v.Read(hash, s, n)
    requires ShardKey(s, n) in v.shards && disk == v.shards[ShardKey(s, n)].disk
    ensures n !in good
    ensures Surveyed(if r.Some? then good[n := r.value] else good,
                     if r.None? || (disk.Some? && disk.value in force) then todo + [n] else todo, v, hash, s, n + 1,
                         force)
  {
    hide View.Read, IsTodo, NeedsWrite;
    CollectOne(good, v, hash, s, n, r);
    NeedsWriteNow(v, hash, s, n, force, r, disk);
    TodoNext(todo, v, hash, s, n, force);
  }

  lemma SurveyedAll(good: map<nat, Vec>, todo: seq<nat>, v: View, hash: Vec -> Checksum, s: StripeId, n: nat,
                    force: set<DiskId>)
    requires Surveyed(good, todo, v, hash, s, n, force)
    ensures good == v.Good(hash, s, n) && IsTodo(todo, v, hash, s, n, force)
  {
    hide View.Read, IsTodo;
    CollectedSize(good, v, hash, s, n);
  }

  lemma MarkedSame(rows: map<ShardKey, ShardRow>)
    ensures Marked(rows, rows)
  {}

  lemma TodoStart(v: View, hash: Vec -> Checksum, s: StripeId, force: set<DiskId>)
    ensures Surveyed(map[], [], v, hash, s, 0, force)
  {}

  lemma ReadMeansRow(v: View, hash: Vec -> Checksum, s: StripeId, i: nat)
    requires v.Read(hash, s, i).Some?
    ensures ShardKey(s, i) in v.shards && v.shards[ShardKey(s, i)].disk.Some?
  {}

  lemma MarkedDisk(a: map<ShardKey, ShardRow>, b: map<ShardKey, ShardRow>, key: ShardKey)
    requires Marked(a, b) && key in a
    ensures key in b && b[key].disk == a[key].disk && b[key].checksum == a[key].checksum
  {}

  lemma NeedsWriteNow(v: View, hash: Vec -> Checksum, s: StripeId, i: nat, force: set<DiskId>, r: Option<Vec>,
                      disk: Option<DiskId>)
    requires ShardKey(s, i) in v.shards && r == v.Read(hash, s, i) && disk == v.shards[ShardKey(s, i)].disk
    ensures NeedsWrite(v, hash, s, i, force) <==> r.None? || (disk.Some? && disk.value in force)
  {
    hide View.Read;
  }

  /** A shard not dealt with yet is as it was. */
  lemma Unseen(base: View, live: View, hash: Vec -> Checksum, s: StripeId, seen: set<nat>, i: nat)
    requires SameBut(base, live, hash, s, seen) && i !in seen && ShardKey(s, i) in base.shards
    ensures live.Read(hash, s, i) == base.Read(hash, s, i)
    ensures ShardKey(s, i) in live.shards && live.shards[ShardKey(s, i)] == base.shards[ShardKey(s, i)]
  {
    hide View.Read;
  }

  lemma RebuiltParts(base: View, live: View, hash: Vec -> Checksum, s: StripeId, row: StripeRow, data: Vec,
                     kept: set<nat>, placed: set<nat>, seen: set<nat>, used: set<DiskId>, force: set<DiskId>)
    requires Rebuilt(base, live, hash, s, row, data, kept, placed, seen, used, force)
    ensures SameBut(base, live, hash, s, seen) && placed <= seen
  {
    hide SameBut, Restored, OnDisks, ApartOn, View.Read;
  }

  lemma TodoAt(todo: seq<nat>, v: View, hash: Vec -> Checksum, s: StripeId, n: nat, force: set<DiskId>, p: nat,
               seen: set<nat>)
    requires IsTodo(todo, v, hash, s, n, force) && p < |todo| && forall i :: i in seen <==> i in todo[..p]
    ensures todo[p] !in seen && todo[p] < n && NeedsWrite(v, hash, s, todo[p], force)
    ensures forall i :: i in seen + {todo[p]} <==> i in todo[..p + 1]
  {
    hide NeedsWrite;
    assert todo[p] in todo;
  }

  lemma NeedsWriteParts(v: View, hash: Vec -> Checksum, s: StripeId, i: nat, force: set<DiskId>)
    requires NeedsWrite(v, hash, s, i, force) && v.Read(hash, s, i).Some?
    ensures ShardKey(s, i) in v.shards && v.shards[ShardKey(s, i)].disk.Some?
            && v.shards[ShardKey(s, i)].disk.value in force
  {}

  function Indexes(todo: seq<nat>): set<nat> {
    set i | i in todo
  }

  lemma AllSeen(seen: set<nat>, todo: seq<nat>)
    requires forall i :: i in seen <==> i in todo[..|todo|]
    ensures seen == Indexes(todo)
  {
    assert todo[..|todo|] == todo;
  }

  /** The shards of a stripe that need no writing. */
  ghost function KeptShards(v: View, hash: Vec -> Checksum, s: StripeId, n: nat, force: set<DiskId>): set<nat> {
    set i: nat | i < n && !NeedsWrite(v, hash, s, i, force)
  }

  /** What a repair achieves: no shard of any stripe that verified is lost; every placed shard is
      the shard that was encoded, on a disk outside force; kept and placed shards are on
      different disks if the kept ones were. */
  ghost predicate Repaired(a: View, b: View, hash: Vec -> Checksum, s: StripeId, row: StripeRow, data: Vec,
                           placed: set<nat>, force: set<DiskId>)
  {
    (forall t: StripeId, i: nat :: a.Read(hash, t, i).Some? ==> b.Read(hash, t, i) == a.Read(hash, t, i))
    && (forall t: StripeId, i: nat :: t != s ==> b.Read(hash, t, i) == a.Read(hash, t, i))
    && (forall i :: i in placed ==> Restored(b, hash, s, row, data, i, force))
    && OnlyMoved(a.shards, b.shards, s, placed)
    && (ApartOn(a, s, KeptShards(a, hash, s, row.k + row.m, force)) ==>
          ApartOn(b, s, KeptShards(a, hash, s, row.k + row.m, force) + placed))
  }

  /** No row but the placed ones of stripe s names another disk than before. */
  ghost predicate OnlyMoved(a: map<ShardKey, ShardRow>, b: map<ShardKey, ShardRow>, s: StripeId, placed: set<nat>) {
    a.Keys == b.Keys
    && forall key :: key in a && (key.stripe != s || key.idx !in placed) ==> b[key].disk == a[key].disk
  }

  lemma MarkedMoved(a: map<ShardKey, ShardRow>, b: map<ShardKey, ShardRow>, c: map<ShardKey, ShardRow>, s: StripeId,
                    placed: set<nat>)
    requires Marked(a, b) && SameRows(b, c, KeysOf(s, placed))
    ensures OnlyMoved(a, c, s, placed)
  {}

  lemma RepairedNothing(a: View, b: View, hash: Vec -> Checksum, s: StripeId, row: StripeRow, data: Vec,
                        force: set<DiskId>)
    requires SameReads(a, b, hash) && Marked(a.shards, b.shards)
    ensures Repaired(a, b, hash, s, row, data, {}, force)
  {
    var kept := KeptShards(a, hash, s, row.k + row.m, force);
    assert kept + {} == kept;
    ApartMarked(a, b, s, kept);
    MarkedMoved(a.shards, b.shards, b.shards, s, {});
    hide View.Read, NeedsWrite, ApartOn, OnlyMoved;
  }

  lemma ApartMarked(a: View, b: View, s: StripeId, on: set<nat>)
    requires Marked(a.shards, b.shards)
    ensures ApartOn(a, s, on) <==> ApartOn(b, s, on)
  {
    assert forall i :: ShardKey(s, i) in a.shards <==> ShardKey(s, i) in b.shards;
    assert forall i :: ShardKey(s, i) in a.shards ==> b.shards[ShardKey(s, i)].disk == a.shards[ShardKey(s, i)].disk;
    hide Marked;
  }

  lemma RebuiltReads(base: View, b: View, hash: Vec -> Checksum, s: StripeId, row: StripeRow, data: Vec, kept: set<nat>,
                     placed: set<nat>, seen: set<nat>, used: set<DiskId>, force: set<DiskId>)
    requires Rebuilt(base, b, hash, s, row, data, kept, placed, seen, used, force)
    ensures forall t: StripeId, i: nat :: base.Read(hash, t, i).Some? || t != s ==>
              b.Read(hash, t, i) == base.Read(hash, t, i)
    ensures forall i :: i in placed ==> Restored(b, hash, s, row, data, i, force)
    ensures SameRows(base.shards, b.shards, KeysOf(s, placed))
    ensures ApartOn(base, s, kept) ==> ApartOn(b, s, kept + placed)
  {
    hide View.Read, ApartOn, OnDisks, Restored, SameRows;
  }

  lemma RepairedFrom(a: View, base: View, b: View, hash: Vec -> Checksum, s: StripeId, row: StripeRow, data: Vec,
                     placed: set<nat>, seen: set<nat>, used: set<DiskId>, force: set<DiskId>)
    requires SameReads(a, base, hash) && Marked(a.shards, base.shards)
    requires Rebuilt(base, b, hash, s, row, data, KeptShards(a, hash, s, row.k + row.m, force), placed, seen, used,
                     force)
    ensures Repaired(a, b, hash, s, row, data, placed, force)
  {
    RebuiltReads(base, b, hash, s, row, data, KeptShards(a, hash, s, row.k + row.m, force), placed, seen, used, force);
    ApartMarked(a, base, s, KeptShards(a, hash, s, row.k + row.m, force));
    MarkedMoved(a.shards, base.shards, b.shards, s, placed);
    hide View.Read, ApartOn, Restored, KeptShards, Marked, SameRows, Rebuilt, OnlyMoved;
  }

  /** A repair that left no shard unwritten makes the stripe survive the loss of any m disks. */
  lemma FullRepairSurvives(a: View, b: View, after: View, hash: Vec -> Checksum, s: StripeId, row: StripeRow, data: Vec,
                           placed: set<nat>, force: set<DiskId>, lost: set<DiskId>)
    requires Repaired(a, b, hash, s, row, data, placed, force)
    requires ApartOn(a, s, KeptShards(a, hash, s, row.k + row.m, force))
    requires Range(row.k + row.m) <= KeptShards(a, hash, s, row.k + row.m, force) + placed
    requires DisksLost(b, after, lost) && |lost| <= row.m
    ensures |after.Good(hash, s, row.k + row.m)| >= row.k
  {
    hide *;
    var n := row.k + row.m;
    AllGood(a, b, hash, s, row, data, placed, force);
    RepairedApart(a, b, hash, s, row, data, placed, force);
    ApartAll(b, s, n, KeptShards(a, hash, s, n, force) + placed);
    SurvivesLosses(b, after, hash, s, n, lost);
  }

  lemma RepairedApart(a: View, b: View, hash: Vec -> Checksum, s: StripeId, row: StripeRow, data: Vec, placed: set<nat>,
                      force: set<DiskId>)
    requires Repaired(a, b, hash, s, row, data, placed, force)
    requires ApartOn(a, s, KeptShards(a, hash, s, row.k + row.m, force))
    ensures ApartOn(b, s, KeptShards(a, hash, s, row.k + row.m, force) + placed)
  {
    hide View.Read, KeptShards, ApartOn;
  }

  lemma ApartAll(v: View, s: StripeId, n: nat, on: set<nat>)
    requires ApartOn(v, s, on) && Range(n) <= on
    ensures Apart(v, s, n)
  {
    forall i: nat | i < n
      ensures i in on
    {
      assert i in Range(n);
    }
  }

  lemma KeptReads(v: View, hash: Vec -> Checksum, s: StripeId, n: nat, force: set<DiskId>, i: nat)
    requires i in KeptShards(v, hash, s, n, force)
    ensures v.Read(hash, s, i).Some?
  {
    hide View.Read;
  }

  lemma RestoredReads(a: View, b: View, hash: Vec -> Checksum, s: StripeId, row: StripeRow, data: Vec, placed: set<nat>,
                      force: set<DiskId>, i: nat)
    requires Repaired(a, b, hash, s, row, data, placed, force)
    requires i in placed || i in KeptShards(a, hash, s, row.k + row.m, force)
    ensures b.Read(hash, s, i).Some?
  {
    hide View.Read, ApartOn, KeptShards, ShardOf;
    if i in placed {
      assert Restored(b, hash, s, row, data, i, force);
    } else {
      KeptReads(a, hash, s, row.k + row.m, force, i);
    }
  }

  lemma AllGood(a: View, b: View, hash: Vec -> Checksum, s: StripeId, row: StripeRow, data: Vec, placed: set<nat>,
                force: set<DiskId>)
    requires Repaired(a, b, hash, s, row, data, placed, force)
    requires Range(row.k + row.m) <= KeptShards(a, hash, s, row.k + row.m, force) + placed
    ensures |b.Good(hash, s, row.k + row.m)| == row.k + row.m
  {
    hide View.Read, KeptShards, Repaired;
    var good, all := b.Good(hash, s, row.k + row.m), Range(row.k + row.m);
    forall i: nat | i in all
      ensures i in good
    {
      RestoredReads(a, b, hash, s, row, data, placed, force, i);
    }
    assert good.Keys == all;
  }

  lemma AllKeptRow(a: State, b: State, hash: Vec -> Checksum, s: StripeId)
    requires AllKept(a, b, hash) && s in a.stripes && s in a.content
    requires StripeOk(a.stripes[s], a.content[s], s, a.shards, hash) && b.stripes == a.stripes && b.content == a.content
    ensures StripeOk(a.stripes[s], a.content[s], s, b.shards, hash) && SameRow(a.stripes[s], a.stripes[s])
  {
    hide StripeOk, RowsCarried;
    assert StripeKept(a, b, hash, s);
  }

  /** Every shard that does not verify is listed. */
  lemma TodoCovers(todo: seq<nat>, v: View, hash: Vec -> Checksum, s: StripeId, n: nat, force: set<DiskId>)
    requires IsTodo(todo, v, hash, s, n, force)
    ensures todo == [] ==> |v.Good(hash, s, n)| == n
    ensures |v.Good(hash, s, n)| < n ==> exists i :: i in todo && i !in v.Good(hash, s, n)
  {
    hide View.Read;
    var good := v.Good(hash, s, n);
    if forall i :: i in todo ==> i in good {
      assert good.Keys == Range(n);
    }
  }

  /** The disks of the shards that stay. */
  function DisksOf(rows: map<ShardKey, ShardRow>, s: StripeId, n: nat, todo: seq<nat>): set<DiskId> {
    set i: nat | i < n && i !in todo && ShardKey(s, i) in rows && rows[ShardKey(s, i)].disk.Some?
      :: rows[ShardKey(s, i)].disk.value
  }

  lemma TodoBase(todo: seq<nat>, a: View, b: View, hash: Vec -> Checksum, s: StripeId, n: nat, force: set<DiskId>)
    requires IsTodo(todo, a, hash, s, n, force) && SameReads(a, b, hash) && Marked(a.shards, b.shards)
    requires forall i: nat :: i < n ==> ShardKey(s, i) in a.shards
    ensures IsTodo(todo, b, hash, s, n, force)
    ensures forall i :: i in todo ==> i < n && ShardKey(s, i) in b.shards && ShardKey(s, i) in a.shards
                                      && b.shards[ShardKey(s, i)].disk == a.shards[ShardKey(s, i)].disk
    ensures forall i :: i in todo ==> i !in KeptShards(a, hash, s, n, force)
  {
    hide View.Read;
  }

  lemma KeptDisks(a: View, b: View, hash: Vec -> Checksum, s: StripeId, n: nat, force: set<DiskId>, todo: seq<nat>)
    requires IsTodo(todo, a, hash, s, n, force) && Marked(a.shards, b.shards)
    ensures DisksOf(a.shards, s, n, todo) == DisksOn(b, s, KeptShards(a, hash, s, n, force))
  {
    var kept := KeptShards(a, hash, s, n, force);
    forall i: nat
      ensures i in kept <==> i < n && i !in todo
    {}
    hide View.Read, NeedsWrite, KeptShards, IsTodo;
    assert forall i :: ShardKey(s, i) in a.shards <==> ShardKey(s, i) in b.shards;
    assert forall i :: ShardKey(s, i) in a.shards ==> b.shards[ShardKey(s, i)].disk == a.shards[ShardKey(s, i)].disk;
    forall d
      ensures d in DisksOf(a.shards, s, n, todo) <==> d in DisksOn(b, s, kept)
    {}
  }

  lemma KeptTaken(a: View, b: View, hash: Vec -> Checksum, s: StripeId, n: nat, force: set<DiskId>, todo: seq<nat>,
                  taken: set<DiskId>)
    requires IsTodo(todo, a, hash, s, n, force) && Marked(a.shards, b.shards) && taken == DisksOf(a.shards, s, n, todo)
    ensures OnDisks(b, s, KeptShards(a, hash, s, n, force), taken)
    ensures taken == DisksOn(b, s, KeptShards(a, hash, s, n, force))
  {
    KeptDisks(a, b, hash, s, n, force, todo);
    hide Marked, DisksOn, DisksOf;
    forall i | i in KeptShards(a, hash, s, n, force)
      ensures ShardKey(s, i) in b.shards && b.shards[ShardKey(s, i)].disk.Some?
              && b.shards[ShardKey(s, i)].disk.value in taken
    {
      ReadMeansRow(a, hash, s, i);
      MarkedDisk(a.shards, b.shards, ShardKey(s, i));
    }
  }

  /** With k or more shards there is nothing a codec cannot rebuild. */
  lemma FewGood(row: StripeRow, data: Vec, good: nat)
    requires Fits(row, data)
    ensures good < row.k ==> good < row.k + row.m
    ensures row.k > 0
  {}

  lemma SameRowSelf(row: StripeRow)
    ensures SameRow(row, row)
  {}

  lemma StampParts(st: State, s: StripeId, state: StripeState, time: nat)
    requires s in st.stripes
    ensures SetStripeState(st, s, state, time)
            == st.(stripes := st.stripes[s := st.stripes[s].(state := state, scrubbed := time)])
  {}

  /** The listed shards that are not in hand. */
  function LostOf(todo: seq<nat>, good: map<nat, Vec>): (r: seq<nat>)
    ensures forall i :: i in r <==> i in todo && i !in good
  {
    if todo == [] then []
    else LostOf(todo[..|todo| - 1], good) + (if todo[|todo| - 1] !in good then [todo[|todo| - 1]] else [])
  }

  /** The listed shards that are in hand. */
  function HandOver(good: map<nat, Vec>, todo: seq<nat>): map<nat, Vec> {
    map i | i in todo && i in good :: good[i]
  }

  lemma RequestedLost(lost: seq<nat>, n: nat)
    ensures forall i :: Requested(i, Some(lost), n) <==> i in lost
  {}

  lemma FoundShards(found: map<nat, Vec>, good: map<nat, Vec>, todo: seq<nat>, row: StripeRow, data: Vec)
    requires Fits(row, data) && FromStripe(good, data, row.k, row.m, row.size)
             && FromStripe(found, data, row.k, row.m, row.size)
    requires forall i :: i in todo ==> i < row.k + row.m && (i in good || i in found)
    ensures forall i :: i in todo ==> i in found + HandOver(good, todo)
                                      && (found + HandOver(good, todo))[i] == ShardOf(row, data, i)
  {
    hide Encoded, Codec.Shards;
    forall i | i in todo
      ensures i in found + HandOver(good, todo) && (found + HandOver(good, todo))[i] == ShardOf(row, data, i)
    {
      if i in good {
        assert IsShard(good[i], i, data, row.k, row.m, row.size);
      } else {
        assert IsShard(found[i], i, data, row.k, row.m, row.size);
      }
    }
  }

  lemma SetRowParts(st: State, key: ShardKey, row: ShardRow)
    ensures SetRow(st, key, row) == st.(shards := st.shards[key := row])
  {}

  lemma RebuiltStart(v: View, hash: Vec -> Checksum, s: StripeId, row: StripeRow, data: Vec, kept: set<nat>,
                     used: set<DiskId>, force: set<DiskId>)
    requires OnDisks(v, s, kept, used)
    ensures Rebuilt(v, v, hash, s, row, data, kept, {}, {}, used, force)
  {
    hide View.Read;
    assert kept + {} == kept;
  }

  lemma SameButNext(base: View, a: View, b: View, hash: Vec -> Checksum, s: StripeId, seen: set<nat>, i: nat)
    requires SameBut(base, a, hash, s, seen) && SameBut(a, b, hash, s, {i})
    ensures SameBut(base, b, hash, s, seen + {i})
  {
    FilesTrans(base.files, a.files, b.files, {s});
    hide View.Read, FilesOutside;
  }

  lemma RestoredStays(a: View, b: View, hash: Vec -> Checksum, s: StripeId, row: StripeRow, data: Vec, i: nat, j: nat,
                      force: set<DiskId>)
    requires SameBut(a, b, hash, s, {i}) && j != i && Restored(a, hash, s, row, data, j, force)
    ensures Restored(b, hash, s, row, data, j, force)
  {
    hide View.Read, ShardOf;
  }

  lemma DisksStay(a: View, b: View, hash: Vec -> Checksum, s: StripeId, i: nat, on: set<nat>, used: set<DiskId>)
    requires SameBut(a, b, hash, s, {i}) && i !in on
    ensures OnDisks(a, s, on, used) ==> OnDisks(b, s, on, used)
    ensures ApartOn(a, s, on) ==> ApartOn(b, s, on)
  {
    hide View.Read;
    assert forall j :: j in on && ShardKey(s, j) in a.shards ==>
             ShardKey(s, j) in b.shards && b.shards[ShardKey(s, j)] == a.shards[ShardKey(s, j)];
  }

  lemma OneMoreDisk(v: View, s: StripeId, on: set<nat>, i: nat, used: set<DiskId>, d: DiskId)
    requires OnDisks(v, s, on, used) && i !in on && d !in used
    requires ShardKey(s, i) in v.shards && v.shards[ShardKey(s, i)].disk == Some(d)
    ensures OnDisks(v, s, on + {i}, used + {d}) && (ApartOn(v, s, on) ==> ApartOn(v, s, on + {i}))
  {}

  lemma OneMoreRow(a: map<ShardKey, ShardRow>, b: map<ShardKey, ShardRow>, s: StripeId, placed: set<nat>, i: nat,
                   row: ShardRow)
    requires SameRows(a, b, KeysOf(s, placed)) && ShardKey(s, i) in b
    ensures SameRows(a, b[ShardKey(s, i) := row], KeysOf(s, placed + {i}))
  {}

  lemma RebuiltSkipped(base: View, a: View, b: View, hash: Vec -> Checksum, s: StripeId, row: StripeRow, data: Vec,
                       kept: set<nat>, placed: set<nat>, seen: set<nat>, used: set<DiskId>, force: set<DiskId>,
                       i: nat, payload: Vec)
    requires Rebuilt(base, a, hash, s, row, data, kept, placed, seen, used, force) && i !in seen && i !in kept
    requires Rewrote(a, b, hash, s, i, payload, None)
    ensures Rebuilt(base, b, hash, s, row, data, kept, placed, seen + {i}, used, force)
  {
    hide View.Read, Restored, OnDisks, ApartOn, SameRows;
    SameButNext(base, a, b, hash, s, seen, i);
    DisksStay(a, b, hash, s, i, kept + placed, used);
    forall j | j in placed
      ensures Restored(b, hash, s, row, data, j, force)
    {
      RestoredStays(a, b, hash, s, row, data, i, j, force);
    }
  }

  lemma RebuiltPlaced(base: View, a: View, b: View, hash: Vec -> Checksum, s: StripeId, row: StripeRow, data: Vec,
                      kept: set<nat>, placed: set<nat>, seen: set<nat>, used: set<DiskId>, force: set<DiskId>,
                      i: nat, d: DiskId)
    requires Rebuilt(base, a, hash, s, row, data, kept, placed, seen, used, force) && i !in seen && i !in kept
    requires Fits(row, data) && i < row.k + row.m && d !in used && d !in force
    requires Rewrote(a, b, hash, s, i, ShardOf(row, data, i), Some(d))
    ensures Rebuilt(base, b, hash, s, row, data, kept, placed + {i}, seen + {i}, used + {d}, force)
  {
    hide View.Read, OnDisks, ApartOn, SameRows, ShardOf;
    SameButNext(base, a, b, hash, s, seen, i);
    OneMoreRow(base.shards, a.shards, s, placed, i, ShardRow(Some(d), Some(hash(ShardOf(row, data, i))), Fine));
    DisksStay(a, b, hash, s, i, kept + placed, used);
    OneMoreDisk(b, s, kept + placed, i, used, d);
    assert kept + (placed + {i}) == kept + placed + {i};
    forall j | j in placed + {i}
      ensures Restored(b, hash, s, row, data, j, force)
    {
      if j != i {
        RestoredStays(a, b, hash, s, row, data, i, j, force);
      }
    }
  }

  // ---------------------------------------------------------------- what the survey counts

  ghost function ObservedAt(v: View, hash: Vec -> Checksum, s: StripeId, i: nat): ShardState {
    if ShardKey(s, i) in v.shards then Observed(v.disks, v.files, hash, s, i, v.shards[ShardKey(s, i)]) else Missing
  }

  /** The shards that do not verify and are recorded as corrupt. */
  ghost function CorruptShards(v: View, hash: Vec -> Checksum, s: StripeId, n: nat): set<nat> {
    set i: nat | i < n && v.Read(hash, s, i).None? && ObservedAt(v, hash, s, i) == Corrupt
  }

  /** The other shards that do not verify. */
  ghost function MissingShards(v: View, hash: Vec -> Checksum, s: StripeId, n: nat): set<nat> {
    set i: nat | i < n && v.Read(hash, s, i).None? && ObservedAt(v, hash, s, i) != Corrupt
  }

  /** The shards whose reading makes disk d report an error. */
  ghost function FaultyReads(v: View, hash: Vec -> Checksum, s: StripeId, n: nat, d: DiskId): set<nat> {
    set i: nat | i < n && FaultsAt(v, hash, s, i, d)
  }

  ghost predicate FaultsAt(v: View, hash: Vec -> Checksum, s: StripeId, i: nat, d: DiskId) {
    ShardKey(s, i) in v.shards && v.shards[ShardKey(s, i)].disk == Some(d)
    && ReadFaults(v.disks, v.files, hash, s, i, v.shards[ShardKey(s, i)])
  }

  /** A shard not surveyed yet looks as it did at the start. */
  lemma ObservedSame(a: View, b: View, hash: Vec -> Checksum, s: StripeId, i: nat)
    requires b.files == a.files && Worn(a.disks, b.disks) && ShardKey(s, i) in a.shards && ShardKey(s, i) in b.shards
    requires b.shards[ShardKey(s, i)] == a.shards[ShardKey(s, i)]
    ensures ObservedAt(b, hash, s, i) == ObservedAt(a, hash, s, i)
    ensures forall d :: FaultsAt(b, hash, s, i, d) <==> FaultsAt(a, hash, s, i, d)
  {
    hide ReadShard;
    StaleDisks(a.disks, b.disks, a.files, hash, s, i, a.shards[ShardKey(s, i)]);
  }

  /** The counts of the survey of shards 0..n, and the errors reported by each disk. */
  ghost predicate Counted(v: View, disks: map<DiskId, Disk>, hash: Vec -> Checksum, s: StripeId, n: nat, corrupt: nat,
                          missing: nat)
  {
    corrupt == |CorruptShards(v, hash, s, n)| && missing == |MissingShards(v, hash, s, n)|
    && disks.Keys == v.disks.Keys
    && forall d :: d in disks ==> disks[d].errors == v.disks[d].errors + |FaultyReads(v, hash, s, n, d)|
  }

  lemma CountedStart(v: View, hash: Vec -> Checksum, s: StripeId)
    ensures Counted(v, v.disks, hash, s, 0, 0, 0)
  {
    assert CorruptShards(v, hash, s, 0) == {} && MissingShards(v, hash, s, 0) == {};
    forall d
      ensures FaultyReads(v, hash, s, 0, d) == {}
    {}
  }

  lemma CountedNext(v: View, b: View, c: map<DiskId, Disk>, hash: Vec -> Checksum, s: StripeId, n: nat, corrupt: nat,
                    missing: nat, row: ShardRow, threshold: nat)
    requires Counted(v, b.disks, hash, s, n, corrupt, missing) && b.files == v.files && Worn(v.disks, b.disks)
    requires ShardKey(s, n) in v.shards && ShardKey(s, n) in b.shards
    requires row == v.shards[ShardKey(s, n)] == b.shards[ShardKey(s, n)]
    requires c == if ReadFaults(b.disks, b.files, hash, s, n, row) then Reported(b.disks, row.disk.value, threshold)
             else b.disks
    ensures Counted(v, c, hash, s, n + 1,
                    if v.Read(hash, s, n).None? && Observed(b.disks, b.files, hash, s, n, row) == Corrupt
                    then corrupt + 1 else corrupt,
                    if v.Read(hash, s, n).None? && Observed(b.disks, b.files, hash, s, n, row) != Corrupt
                    then missing + 1 else missing)
  {
    hide View.Read, Observed, ObservedAt, ReadFaults, FaultsAt, Worn, Reported, CorruptShards, MissingShards,
    FaultyReads;
    ObservedIs(v, b, hash, s, n, row);
    BadNext(v, hash, s, n);
    ReportedKeys(b, c, hash, s, n, row, threshold);
    forall d | d in c
      ensures c[d].errors == v.disks[d].errors + |FaultyReads(v, hash, s, n + 1, d)|
    {
      FaultyNext(v, hash, s, n, d);
      FaultsAre(v, b, c, hash, s, n, row, threshold, d);
    }
  }

  lemma ObservedIs(a: View, b: View, hash: Vec -> Checksum, s: StripeId, i: nat, row: ShardRow)
    requires b.files == a.files && Worn(a.disks, b.disks) && ShardKey(s, i) in a.shards
             && a.shards[ShardKey(s, i)] == row
    ensures ObservedAt(a, hash, s, i) == Observed(b.disks, b.files, hash, s, i, row)
  {
    hide ReadShard;
    StaleDisks(a.disks, b.disks, a.files, hash, s, i, row);
  }

  lemma ReportedKeys(b: View, c: map<DiskId, Disk>, hash: Vec -> Checksum, s: StripeId, n: nat, row: ShardRow,
                     threshold: nat)
    requires c == if ReadFaults(b.disks, b.files, hash, s, n, row) then Reported(b.disks, row.disk.value, threshold)
             else b.disks
    ensures c.Keys == b.disks.Keys
  {
    hide ReadShard;
  }

  lemma FaultsAre(v: View, b: View, c: map<DiskId, Disk>, hash: Vec -> Checksum, s: StripeId, n: nat, row: ShardRow,
                  threshold: nat, d: DiskId)
    requires b.files == v.files && Worn(v.disks, b.disks) && ShardKey(s, n) in v.shards && ShardKey(s, n) in b.shards
    requires row == v.shards[ShardKey(s, n)] == b.shards[ShardKey(s, n)] && d in c
    requires c == if ReadFaults(b.disks, b.files, hash, s, n, row) then Reported(b.disks, row.disk.value, threshold)
             else b.disks
    ensures d in b.disks && c[d].errors == b.disks[d].errors + if FaultsAt(v, hash, s, n, d) then 1 else 0
  {
    hide ReadShard;
    ObservedSame(v, b, hash, s, n);
  }

  lemma BadNext(v: View, hash: Vec -> Checksum, s: StripeId, n: nat)
    ensures CorruptShards(v, hash, s, n + 1) == CorruptShards(v, hash, s, n)
            + if v.Read(hash, s, n).None? && ObservedAt(v, hash, s, n) == Corrupt then {n} else {}
    ensures MissingShards(v, hash, s, n + 1) == MissingShards(v, hash, s, n)
            + if v.Read(hash, s, n).None? && ObservedAt(v, hash, s, n) != Corrupt then {n} else {}
    ensures n !in CorruptShards(v, hash, s, n) && n !in MissingShards(v, hash, s, n)
  {
    hide View.Read, ObservedAt;
  }

  lemma FaultyNext(v: View, hash: Vec -> Checksum, s: StripeId, n: nat, d: DiskId)
    ensures FaultyReads(v, hash, s, n + 1, d) == FaultyReads(v, hash, s, n, d) + if FaultsAt(v, hash, s, n, d) then {n}
            else {}
    ensures n !in FaultyReads(v, hash, s, n, d)
  {
    hide FaultsAt;
  }

  // ---------------------------------------------------------------- what becomes of each shard

  /** The disks that the rows of these shards name. */
  ghost function DisksOn(v: View, s: StripeId, on: set<nat>): set<DiskId> {
    set i | i in on && ShardKey(s, i) in v.shards
        && v.shards[ShardKey(s, i)].disk.Some? :: v.shards[ShardKey(s, i)].disk.value
  }

  ghost function Below(on: set<nat>, i: nat): set<nat> {
    set j | j in on && j < i
  }

  /** No writable disk is left for a shard of the stripe: each is excluded or holds one of these shards. */
  ghost predicate NoRoom(v: View, s: StripeId, on: set<nat>, force: set<DiskId>) {
    Candidates(v.disks, DisksOn(v, s, on) + force) == {}
  }

  ghost function FailedOn(failed: map<nat, DiskId>, d: DiskId): set<nat> {
    set i | i in failed && failed[i] == d
  }

  /** The row of shard i names a disk that could be written before and is not excluded. */
  ghost predicate Housed(v: View, before: map<DiskId, Disk>, s: StripeId, i: nat, force: set<DiskId>) {
    ShardKey(s, i) in v.shards && v.shards[ShardKey(s, i)].disk.Some?
    && v.shards[ShardKey(s, i)].disk.value in Candidates(before, force)
  }

  /** The placed shards are on disks of their own: no two of them share one, and none shares one with a shard
      that was kept. */
  ghost predicate Alone(v: View, s: StripeId, kept: set<nat>, placed: set<nat>) {
    ApartOn(v, s, placed) && DisksOn(v, s, placed) !! DisksOn(v, s, kept)
  }

  /** Every shard of todo has one fate. A placed one is alone on a disk that could be written; a starved one
      found each writable disk excluded or taken by a shard that was kept or placed before it; a failed
      one was sent to a disk that could be written. */
  ghost predicate Accounted(v: View, before: map<DiskId, Disk>, s: StripeId, kept: set<nat>, out: Outcome,
                            todo: set<nat>,
                            force: set<DiskId>)
  {
    out.placed + out.starved + out.failed.Keys == todo
    && out.placed !! out.starved && out.placed !! out.failed.Keys && out.starved !! out.failed.Keys
    && (forall i :: i in out.placed ==> Housed(v, before, s, i, force)) && Alone(v, s, kept, out.placed)
    && (forall i :: i in out.starved ==> NoRoom(v, s, kept + Below(out.placed, i), force))
    && (forall i :: i in out.failed ==> out.failed[i] in Candidates(before, force))
  }

  /** Each failed write made its disk report one error, and nothing else did. */
  ghost predicate Tallied(a: map<DiskId, Disk>, b: map<DiskId, Disk>, failed: map<nat, DiskId>) {
    a.Keys == b.Keys && forall d :: d in a ==> b[d].errors == a[d].errors + |FailedOn(failed, d)|
  }

  lemma AccountedStart(v: View, before: map<DiskId, Disk>, s: StripeId, kept: set<nat>, force: set<DiskId>)
    ensures Accounted(v, before, s, kept, Outcome({}, {}, map[]), {}, force) && Tallied(v.disks, v.disks, map[])
  {
    assert forall d :: FailedOn(map[], d) == {};
  }

  lemma RoomStays(a: View, b: View, hash: Vec -> Checksum, s: StripeId, i: nat, on: set<nat>, force: set<DiskId>)
    requires SameBut(a, b, hash, s, {i}) && i !in on && Worn(a.disks, b.disks)
    ensures DisksOn(b, s, on) == DisksOn(a, s, on)
    ensures NoRoom(a, s, on, force) ==> NoRoom(b, s, on, force)
  {
    hide View.Read;
    assert forall j :: j in on ==> ShardKey(s, j) !in KeysOf(s, {i});
    assert DisksOn(b, s, on) == DisksOn(a, s, on);
    FewerCandidates(a.disks, b.disks, DisksOn(a, s, on) + force, DisksOn(b, s, on) + force);
  }

  lemma AloneStays(a: View, b: View, hash: Vec -> Checksum, s: StripeId, i: nat, kept: set<nat>, placed: set<nat>)
    requires SameBut(a, b, hash, s, {i}) && Worn(a.disks, b.disks) && Alone(a, s, kept, placed)
    requires i !in kept && i !in placed
    ensures Alone(b, s, kept, placed)
  {
    RoomStays(a, b, hash, s, i, kept, {});
    RoomStays(a, b, hash, s, i, placed, {});
    DisksStay(a, b, hash, s, i, placed, {});
    hide SameBut, Worn, ApartOn, DisksOn, NoRoom, OnDisks;
  }

  lemma AloneNext(v: View, s: StripeId, kept: set<nat>, placed: set<nat>, i: nat)
    requires Alone(v, s, kept, placed) && ShardKey(s, i) in v.shards && v.shards[ShardKey(s, i)].disk.Some?
    requires v.shards[ShardKey(s, i)].disk.value !in DisksOn(v, s, kept + placed)
    ensures Alone(v, s, kept, placed + {i})
  {
    var d := v.shards[ShardKey(s, i)].disk.value;
    PlacedDisk(v, s, placed, i, d);
    assert DisksOn(v, s, kept + placed) == DisksOn(v, s, kept) + DisksOn(v, s, placed);
    forall j | j in placed && j != i
      ensures v.shards[ShardKey(s, j)].disk != Some(d)
    {
      assert v.shards[ShardKey(s, j)].disk.value in DisksOn(v, s, placed);
    }
  }

  lemma HousedStays(a: View, b: View, hash: Vec -> Checksum, before: map<DiskId, Disk>, s: StripeId, i: nat, j: nat,
                    force: set<DiskId>)
    requires SameBut(a, b, hash, s, {i}) && j != i && Housed(a, before, s, j, force)
    ensures Housed(b, before, s, j, force)
  {
    hide View.Read, Candidates;
  }

  /** The next shard, i, has been dealt with in the way that out and more differ. */
  lemma AccountedNext(a: View, b: View, hash: Vec -> Checksum, before: map<DiskId, Disk>, s: StripeId, kept: set<nat>,
                      out: Outcome, more: Outcome, seen: set<nat>, force: set<DiskId>, i: nat)
    requires Accounted(a, before, s, kept, out, seen, force) && SameBut(a, b, hash, s, {i}) && Worn(a.disks, b.disks)
    requires (forall j :: j in seen ==> j < i) && i !in kept
    requires (more == out.(placed := out.placed + {i}) && Housed(b, before, s, i, force)
              && b.shards[ShardKey(s, i)].disk.value !in DisksOn(a, s, kept + out.placed))
             || (more == out.(starved := out.starved + {i}) && NoRoom(a, s, kept + out.placed, force))
             || (exists d :: d in Candidates(before, force) && more == out.(failed := out.failed[i := d]))
    ensures Accounted(b, before, s, kept, more, seen + {i}, force)
  {
    hide SameBut, NoRoom, Worn, Housed, Candidates, Alone, DisksOn, Below;
    assert i !in seen;
    AloneAfter(a, b, hash, before, s, kept, out, more, force, i);
    StarvedAfter(a, b, hash, s, kept, out, more, seen, force, i);
    forall j | j in more.placed
      ensures Housed(b, before, s, j, force)
    {
      if j != i {
        HousedStays(a, b, hash, before, s, i, j, force);
      }
    }
  }

  lemma StarvedAfter(a: View, b: View, hash: Vec -> Checksum, s: StripeId, kept: set<nat>, out: Outcome, more: Outcome,
                     seen: set<nat>, force: set<DiskId>, i: nat)
    requires SameBut(a, b, hash, s, {i}) && Worn(a.disks, b.disks) && i !in kept
    requires out.placed <= seen && out.starved <= seen && forall j :: j in seen ==> j < i
    requires more.placed == out.placed || more.placed == out.placed + {i}
    requires forall j :: j in out.starved ==> NoRoom(a, s, kept + Below(out.placed, j), force)
    requires more.starved == out.starved
             || (more.starved == out.starved + {i} && NoRoom(a, s, kept + out.placed, force))
    ensures forall j :: j in more.starved ==> NoRoom(b, s, kept + Below(more.placed, j), force)
  {
    hide SameBut, NoRoom, Worn, DisksOn;
    forall j | j in more.starved
      ensures NoRoom(b, s, kept + Below(more.placed, j), force)
    {
      assert Below(more.placed, j) == if j == i then out.placed else Below(out.placed, j);
      RoomStays(a, b, hash, s, i, kept + Below(more.placed, j), force);
    }
  }

  lemma AloneAfter(a: View, b: View, hash: Vec -> Checksum, before: map<DiskId, Disk>, s: StripeId, kept: set<nat>,
                   out: Outcome, more: Outcome, force: set<DiskId>, i: nat)
    requires Alone(a, s, kept, out.placed) && SameBut(a, b, hash, s, {i}) && Worn(a.disks, b.disks)
    requires i !in kept && i !in out.placed
    requires more.placed == out.placed
             || (more.placed == out.placed + {i} && Housed(b, before, s, i, force)
                 && b.shards[ShardKey(s, i)].disk.value !in DisksOn(a, s, kept + out.placed))
    ensures Alone(b, s, kept, more.placed)
  {
    hide SameBut, Worn, DisksOn, Candidates, ApartOn, NoRoom;
    AloneStays(a, b, hash, s, i, kept, out.placed);
    if more.placed != out.placed {
      RoomStays(a, b, hash, s, i, kept + out.placed, {});
      AloneNext(b, s, kept, out.placed, i);
    }
  }

  lemma ReportedErrors(a: map<DiskId, Disk>, d: DiskId, threshold: nat)
    requires d in a
    ensures var b := Reported(a, d, threshold);
            b.Keys == a.Keys && forall c :: c in a ==> b[c].errors == a[c].errors + if c == d then 1 else 0
  {}

  lemma TalliedNext(a: map<DiskId, Disk>, m: map<DiskId, Disk>, b: map<DiskId, Disk>, failed: map<nat, DiskId>, i: nat,
                    d: DiskId, threshold: nat)
    requires Tallied(a, m, failed) && i !in failed && d in m && b == Reported(m, d, threshold)
    ensures Tallied(a, b, failed[i := d])
  {
    ReportedErrors(m, d, threshold);
    hide Reported;
    forall c | c in a
      ensures b[c].errors == a[c].errors + |FailedOn(failed[i := d], c)|
    {
      assert FailedOn(failed[i := d], c) == FailedOn(failed, c) + if c == d then {i} else {};
    }
  }

  /** The error counters after a survey and the writes that followed it. */
  ghost predicate AllTallied(v: View, b: map<DiskId, Disk>, hash: Vec -> Checksum, s: StripeId, n: nat,
                             failed: map<nat, DiskId>)
  {
    b.Keys == v.disks.Keys
    && forall d :: d in b ==> b[d].errors == v.disks[d].errors + |FaultyReads(v, hash, s, n, d)| + |FailedOn(failed, d)|
  }

  lemma TalliedAll(v: View, m: map<DiskId, Disk>, b: map<DiskId, Disk>, hash: Vec -> Checksum, s: StripeId, n: nat,
                   corrupt: nat, missing: nat, failed: map<nat, DiskId>)
    requires Counted(v, m, hash, s, n, corrupt, missing) && Tallied(m, b, failed)
    ensures AllTallied(v, b, hash, s, n, failed)
  {
    hide FaultyReads, CorruptShards, MissingShards, FailedOn;
  }

  lemma TalliedNothing(disks: map<DiskId, Disk>)
    ensures Tallied(disks, disks, map[])
  {
    assert forall d :: FailedOn(map[], d) == {};
  }

  lemma CountsAre(v: View, disks: map<DiskId, Disk>, hash: Vec -> Checksum, s: StripeId, n: nat, corrupt: nat,
                  missing: nat)
    requires Counted(v, disks, hash, s, n, corrupt, missing)
    ensures corrupt == |CorruptShards(v, hash, s, n)| && missing == |MissingShards(v, hash, s, n)|
  {
    hide CorruptShards, MissingShards;
  }

  lemma TodoBelow(todo: seq<nat>, v: View, hash: Vec -> Checksum, s: StripeId, n: nat, force: set<DiskId>, p: nat,
                  seen: set<nat>)
    requires IsTodo(todo, v, hash, s, n, force) && p < |todo| && forall i :: i in seen <==> i in todo[..p]
    ensures forall j :: j in seen ==> j < todo[p]
  {
    hide NeedsWrite;
  }

  lemma AccountedParts(v: View, before: map<DiskId, Disk>, s: StripeId, kept: set<nat>, out: Outcome, seen: set<nat>,
                       force: set<DiskId>)
    requires Accounted(v, before, s, kept, out, seen, force)
    ensures out.placed <= seen && out.starved <= seen && out.failed.Keys <= seen
  {
    hide NoRoom;
  }

  /** One shard went to disk d, or was to go to the disk tried: no disk was tried only if there was none,
      and a disk that was tried in vain reported an error. */
  ghost predicate Went(a: map<DiskId, Disk>, b: map<DiskId, Disk>, before: map<DiskId, Disk>, used: set<DiskId>,
                       force: set<DiskId>, d: Option<DiskId>, tried: Option<DiskId>, threshold: nat)
  {
    (d.Some? ==> tried == d && b == a)
    && (tried.None? ==> b == a && Candidates(b, used + force) == {})
    && (tried.Some? ==> tried.value in before && Writable(before[tried.value].status) && tried.value in a
                        && tried.value !in used && tried.value !in force)
    && (d.None? && tried.Some? ==> b == Reported(a, tried.value, threshold))
  }

  /** The fate of shard i. */
  ghost function OneMore(out: Outcome, i: nat, d: Option<DiskId>, tried: Option<DiskId>): Outcome {
    if d.Some? then out.(placed := out.placed + {i})
    else if tried.Some? then out.(failed := out.failed[i := tried.value])
    else out.(starved := out.starved + {i})
  }

  /** After the shards of seen were dealt with: their fates, the error counters and the disks in use. */
  ghost predicate Fated(v: View, before: map<DiskId, Disk>, first: map<DiskId, Disk>, s: StripeId, kept: set<nat>,
                        out: Outcome, seen: set<nat>, used: set<DiskId>, force: set<DiskId>)
  {
    Accounted(v, before, s, kept, out, seen, force) && Tallied(first, v.disks, out.failed)
    && used == DisksOn(v, s, kept + out.placed)
  }

  lemma FatedStart(v: View, before: map<DiskId, Disk>, s: StripeId, kept: set<nat>, used: set<DiskId>,
                   force: set<DiskId>)
    requires used == DisksOn(v, s, kept)
    ensures Fated(v, before, v.disks, s, kept, Outcome({}, {}, map[]), {}, used, force)
  {
    AccountedStart(v, before, s, kept, force);
    assert kept + {} == kept;
    hide Accounted, Tallied, DisksOn;
  }

  lemma FatedParts(v: View, before: map<DiskId, Disk>, first: map<DiskId, Disk>, s: StripeId, kept: set<nat>,
                   out: Outcome, seen: set<nat>, used: set<DiskId>, force: set<DiskId>)
    requires Fated(v, before, first, s, kept, out, seen, used, force)
    ensures Accounted(v, before, s, kept, out, seen, force) && Tallied(first, v.disks, out.failed)
  {
    hide Accounted, Tallied;
  }

  lemma FatedNext(a: View, b: View, hash: Vec -> Checksum, before: map<DiskId, Disk>, first: map<DiskId, Disk>,
                  s: StripeId,
                  kept: set<nat>, out: Outcome, seen: set<nat>, used: set<DiskId>, force: set<DiskId>, i: nat, payload:
                  Vec,
                  d: Option<DiskId>, tried: Option<DiskId>, threshold: nat)
    requires Fated(a, before, first, s, kept, out, seen, used, force) && Rewrote(a, b, hash, s, i, payload, d)
    requires Worn(a.disks, b.disks) && Went(a.disks, b.disks, before, used, force, d, tried, threshold)
    requires (forall j :: j in seen ==> j < i) && i !in kept
    ensures Fated(b, before, first, s, kept, OneMore(out, i, d, tried), seen + {i},
                  if d.Some? then used + {d.value} else used, force)
  {
    hide *;
    FatedParts(a, before, first, s, kept, out, seen, used, force);
    RewroteBut(a, b, hash, s, i, payload, d);
    RoomNow(a, before, first, s, kept, out, seen, used, force);
    OneMoreFate(out, i, d, tried, a.disks, b.disks, before, used, force, threshold);
    if d.Some? {
      HousedNow(b, before, s, i, force, d.value);
    }
    UsedDisks(a, before, first, s, kept, out, seen, used, force);
    AccountedNext(a, b, hash, before, s, kept, out, OneMore(out, i, d, tried), seen, force, i);
    FatedDisks(a, b, hash, before, first, s, kept, out, seen, used, force, i, d);
    if d.None? && tried.Some? {
      AccountedParts(a, before, s, kept, out, seen, force);
      TalliedNext(first, a.disks, b.disks, out.failed, i, tried.value, threshold);
    }
    FatedFrom(b, before, first, s, kept, OneMore(out, i, d, tried), seen + {i}, if d.Some? then used + {d.value}
              else used, force);
  }

  lemma UsedDisks(v: View, before: map<DiskId, Disk>, first: map<DiskId, Disk>, s: StripeId, kept: set<nat>,
                  out: Outcome, seen: set<nat>, used: set<DiskId>, force: set<DiskId>)
    requires Fated(v, before, first, s, kept, out, seen, used, force)
    ensures used == DisksOn(v, s, kept + out.placed)
  {
    hide Accounted, Tallied, DisksOn;
  }

  lemma HousedNow(v: View, before: map<DiskId, Disk>, s: StripeId, i: nat, force: set<DiskId>, d: DiskId)
    requires ShardKey(s, i) in v.shards && v.shards[ShardKey(s, i)].disk == Some(d) && d in Candidates(before, force)
    ensures Housed(v, before, s, i, force)
  {}

  lemma FatedFrom(v: View, before: map<DiskId, Disk>, first: map<DiskId, Disk>, s: StripeId, kept: set<nat>,
                  out: Outcome, seen: set<nat>, used: set<DiskId>, force: set<DiskId>)
    requires Accounted(v, before, s, kept, out, seen, force) && Tallied(first, v.disks, out.failed)
    requires used == DisksOn(v, s, kept + out.placed)
    ensures Fated(v, before, first, s, kept, out, seen, used, force)
  {
    hide Accounted, Tallied;
  }

  lemma FatedDisks(a: View, b: View, hash: Vec -> Checksum, before: map<DiskId, Disk>, first: map<DiskId, Disk>,
                   s: StripeId,
                   kept: set<nat>, out: Outcome, seen: set<nat>, used: set<DiskId>, force: set<DiskId>, i: nat,
                   d: Option<DiskId>)
    requires Fated(a, before, first, s, kept, out, seen, used, force) && SameBut(a, b, hash, s, {i})
             && Worn(a.disks, b.disks)
    requires i !in kept && (forall j :: j in seen ==> j < i)
    requires d.Some? ==> ShardKey(s, i) in b.shards && b.shards[ShardKey(s, i)].disk == d
    ensures DisksOn(b, s, kept + out.placed) == used
    ensures d.Some? ==> DisksOn(b, s, kept + (out.placed + {i})) == used + {d.value}
  {
    assert i !in out.placed;
    RoomStays(a, b, hash, s, i, kept + out.placed, force);
    if d.Some? {
      PlacedDisk(b, s, kept + out.placed, i, d.value);
      assert kept + out.placed + {i} == kept + (out.placed + {i});
    }
    hide SameBut, Worn, Tallied, NoRoom, DisksOn;
  }

  lemma OneMoreFate(out: Outcome, i: nat, d: Option<DiskId>, tried: Option<DiskId>, a: map<DiskId, Disk>,
                    b: map<DiskId, Disk>,
                    before: map<DiskId, Disk>, used: set<DiskId>, force: set<DiskId>, threshold: nat)
    requires Went(a, b, before, used, force, d, tried, threshold)
    ensures var more := OneMore(out, i, d, tried);
            more.placed == (if d.Some? then out.placed + {i} else out.placed)
            && more.failed == (if d.None? && tried.Some? then out.failed[i := tried.value] else out.failed)
            && (d.Some? || (more == out.(starved := out.starved + {i}) && Candidates(a, used + force) == {})
                || exists c :: c in Candidates(before, force) && more == out.(failed := out.failed[i := c]))
    ensures d.Some? ==>
              d.value in Candidates(before, force) && d.value !in used
                  && OneMore(out, i, d, tried) == out.(placed := out.placed + {i})
    ensures d.None? && tried.Some? ==> tried.value in a && b == Reported(a, tried.value, threshold)
    ensures d.Some? || tried.None? ==> b == a
  {
    hide Reported;
    if d.None? && tried.Some? {
      assert tried.value in Candidates(before, force);
    }
  }

  lemma RoomNow(v: View, before: map<DiskId, Disk>, first: map<DiskId, Disk>, s: StripeId, kept: set<nat>,
                out: Outcome, seen: set<nat>, used: set<DiskId>, force: set<DiskId>)
    requires Fated(v, before, first, s, kept, out, seen, used, force)
    ensures NoRoom(v, s, kept + out.placed, force) <==> Candidates(v.disks, used + force) == {}
  {
    hide Accounted, Tallied;
  }

  lemma RewroteBut(a: View, b: View, hash: Vec -> Checksum, s: StripeId, i: nat, payload: Vec, d: Option<DiskId>)
    requires Rewrote(a, b, hash, s, i, payload, d)
    ensures SameBut(a, b, hash, s, {i})
    ensures d.Some? ==> ShardKey(s, i) in b.shards && b.shards[ShardKey(s, i)].disk == d
  {
    hide SameBut;
  }

  lemma PlacedDisk(v: View, s: StripeId, on: set<nat>, i: nat, d: DiskId)
    requires ShardKey(s, i) in v.shards && v.shards[ShardKey(s, i)].disk == Some(d)
    ensures DisksOn(v, s, on + {i}) == DisksOn(v, s, on) + {d}
  {}

  lemma WentNowhere(disks: map<DiskId, Disk>, before: map<DiskId, Disk>, own: Option<DiskId>, used: set<DiskId>,
                    force: set<DiskId>, d: Option<DiskId>, threshold: nat)
    requires OwnUsable(own, before, used, force) ==> d == own
    requires !OwnUsable(own, before, used, force) ==> (d.None? <==> Candidates(disks, used + force) == {})
    requires d.Some? ==> d.value !in used && d.value !in force && d.value in before && Writable(before[d.value].status)
    requires d.Some? ==> d.value in disks
    ensures Went(disks, disks, before, used, force, d, d, threshold)
  {
    hide Candidates, Reported;
  }

  lemma WentInVain(disks: map<DiskId, Disk>, before: map<DiskId, Disk>, used: set<DiskId>, force: set<DiskId>,
                   t: DiskId,
                   threshold: nat)
    requires Went(disks, disks, before, used, force, Some(t), Some(t), threshold)
    ensures t in disks && Went(disks, Reported(disks, t, threshold), before, used, force, None, Some(t), threshold)
  {
    hide Candidates, Reported;
  }

  lemma NotSeen(v: View, before: map<DiskId, Disk>, first: map<DiskId, Disk>, s: StripeId, kept: set<nat>, out: Outcome,
                seen: set<nat>, used: set<DiskId>, force: set<DiskId>, i: nat, d: Option<DiskId>, tried: Option<DiskId>)
    requires Fated(v, before, first, s, kept, out, seen, used, force) && i !in seen
    ensures i !in out.placed
    ensures OneMore(out, i, d, tried).placed == if d.Some? then out.placed + {i} else out.placed
  {
    hide NoRoom, Tallied, DisksOn;
  }

  lemma FailedFaulted(v: View, b: View, hash: Vec -> Checksum, s: StripeId, n: nat, failed: map<nat, DiskId>, i: nat)
    requires AllTallied(v, b.disks, hash, s, n, failed) && i in failed && failed[i] in v.disks
    ensures failed[i] in Faulted(v.disks, b.disks)
  {
    hide FaultyReads;
    assert i in FailedOn(failed, failed[i]);
    assert |FailedOn(failed, failed[i])| > 0;
  }

  /** Kept and listed shards are all shards. */
  lemma TodoIndexes(todo: seq<nat>, v: View, hash: Vec -> Checksum, s: StripeId, n: nat, force: set<DiskId>)
    requires IsTodo(todo, v, hash, s, n, force)
    ensures Indexes(todo) == Range(n) - KeptShards(v, hash, s, n, force) && Indexes([]) == {}
  {
    hide NeedsWrite;
  }

  /** Disk d belongs to the shard and may take it back. */
  predicate OwnUsable(own: Option<DiskId>, disks: map<DiskId, Disk>, used: set<DiskId>, force: set<DiskId>) {
    own.Some? && own.value in disks && Writable(disks[own.value].status) && own.value !in force && own.value !in used
  }

  // ---------------------------------------------------------------- detaching

  /** The shards of stripe s on disk d become missing shards without a disk. */
  function Detached(shards: map<ShardKey, ShardRow>, s: StripeId, d: DiskId): map<ShardKey, ShardRow> {
    map key | key in shards ::
      if key.stripe == s
          && shards[key].disk == Some(d) then shards[key].(disk := None, state := Missing) else shards[key]
  }

  lemma DetachedStep(st: State, hash: Vec -> Checksum, s: StripeId, d: DiskId)
    requires Consistent(st, hash)
    ensures var b := st.(shards := Detached(st.shards, s, d)); Consistent(b, hash) && SameVisible(st, b)
  {
    DetachedRows(st, hash, s, d);
    hide *;
    RowUpdateStep(st, st.(shards := Detached(st.shards, s, d)), hash);
  }

  lemma DetachedRows(st: State, hash: Vec -> Checksum, s: StripeId, d: DiskId)
    requires Consistent(st, hash)
    ensures RowUpdate(st, st.(shards := Detached(st.shards, s, d)), hash)
  {
    hide StripeKept, ObjectOk, StripesOk, KeysUnique;
    var b := st.(shards := Detached(st.shards, s, d));
    forall t | t in st.stripes && t in st.content
      ensures StripeKept(st, b, hash, t)
    {
      assert RowsCarried(st, b, t);
      RowsCarriedKept(st, b, hash, t);
    }
  }
}
