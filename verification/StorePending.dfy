/** Dropping whatever was never committed. */
module StorePending {
  import opened Wrappers
  import opened LinearAlgebra
  import opened StoreTypes
  import opened StoreState
  import opened StoreSteps
  import opened StorePutting
  import opened StoreDecoding

  function PendingStripes(stripes: map<StripeId, StripeRow>): set<StripeId> {
    set s | s in stripes && stripes[s].state.Pending?
  }

  function PendingObjects(objects: map<ObjectId, ObjectRow>): set<ObjectId> {
    set o | o in objects && !objects[o].committed
  }

  /** Every file a pending stripe may have left on a readable disk. */
  function SweptPaths(stripes: map<StripeId, StripeRow>, disks: map<DiskId, Disk>): (r: set<Path>)
    ensures forall p :: p in r <==> p.stripe in stripes && stripes[p.stripe].state.Pending? && p.disk in disks
                                    && Readable(disks[p.disk].status)
                                    && p.idx < stripes[p.stripe].k + stripes[p.stripe].m
  {
    set s, d, i: nat | s in PendingStripes(stripes) && d in disks && Readable(disks[d].status)
                       && i < stripes[s].k + stripes[s].m :: Path(d, s, i)
  }

  lemma ShrunkDelete(a: State, b: State, o: ObjectId, ids: set<StripeId>)
    requires Shrunk(a, b)
    ensures Shrunk(a, DeleteObject(b, o)) && Shrunk(a, DeleteStripes(b, ids))
    ensures PendingStripes(b.stripes) == {} ==> PendingStripes(DeleteObject(b, o).stripes) == {}
    ensures PendingObjects(DeleteObject(b, o).objects) == PendingObjects(b.objects) - {o}
  {}

  lemma ShrunkPending(st: State)
    ensures PendingStripes(DeleteStripes(st, PendingStripes(st.stripes)).stripes) == {}
    ensures DeleteStripes(st, PendingStripes(st.stripes)).objects == st.objects
    ensures Shrunk(st, st)
  {}

  lemma PendingApart(a: State, b: State, hash: Vec -> Checksum, o: ObjectId)
    requires Shrunk(a, b) && o in b.objects && !b.objects[o].committed
    ensures VisibleStripes(a) !! OwnedBy(b, o)
  {}

  lemma PendingVisible(st: State)
    ensures VisibleStripes(st) !! PendingStripes(st.stripes)
  {}

  lemma OwnedDropped(st: State, o: ObjectId)
    ensures DeleteObject(st, o).shards == ShardsWithout(st.shards, OwnedBy(st, o))
  {}

  /** The stripes that are gone once only the waiting objects are left to drop. */
  function Cleared(st: State, waiting: set<ObjectId>): set<StripeId> {
    PendingStripes(st.stripes)
        + (set s | s in st.stripes && st.stripes[s].owner in PendingObjects(st.objects) - waiting)
  }

  /** The files to go by then: those a pending stripe may have left, and those named by rows of the objects dropped. */
  function ClearedPaths(st: State, disks: map<DiskId, Disk>, waiting: set<ObjectId>): set<Path> {
    SweptPaths(st.stripes, disks) + PathsOf(st.shards, disks, Cleared(st, waiting) - PendingStripes(st.stripes))
  }

  ghost predicate ClearedRows(st: State, now: State, waiting: set<ObjectId>) {
    now.stripes == StripesWithout(st.stripes, Cleared(st, waiting))
    && now.shards == ShardsWithout(st.shards, Cleared(st, waiting))
  }

  /** In the end every file goes that a pending stripe may have left on a readable disk, and every one that a row
      names on a registered disk if its stripe belongs to an object that was not committed. */
  lemma ClearedAre(st: State, disks: map<DiskId, Disk>, p: Path)
    ensures var key := ShardKey(p.stripe, p.idx);
            p in ClearedPaths(st, disks, {}) <==>
            p.stripe in st.stripes && p.disk in disks
            && var row := st.stripes[p.stripe];
            if row.state.Pending? then Readable(disks[p.disk].status) && p.idx < row.k + row.m
            else row.owner in st.objects && !st.objects[row.owner].committed && key in st.shards
                 && st.shards[key].disk == Some(p.disk)
  {}

  lemma ClearedStart(st: State, disks: map<DiskId, Disk>)
    ensures ClearedRows(st, DeleteStripes(st, PendingStripes(st.stripes)), PendingObjects(st.objects))
    ensures ClearedPaths(st, disks, PendingObjects(st.objects)) == SweptPaths(st.stripes, disks)
  {
    assert Cleared(st, PendingObjects(st.objects)) == PendingStripes(st.stripes);
  }

  lemma ClearedOne(st: State, now: State, waiting: set<ObjectId>, o: ObjectId)
    requires ClearedRows(st, now, waiting) && o in waiting && waiting <= PendingObjects(st.objects)
    ensures OwnedBy(now, o) == OwnedBy(st, o) - PendingStripes(st.stripes)
    ensures Cleared(st, waiting - {o}) == Cleared(st, waiting) + OwnedBy(now, o)
    ensures OwnedBy(now, o) !! Cleared(st, waiting)
  {}

  lemma WithoutMore(st: State, now: State, gone: set<StripeId>, ids: set<StripeId>)
    requires now.stripes == StripesWithout(st.stripes, gone) && now.shards == ShardsWithout(st.shards, gone)
    ensures StripesWithout(now.stripes, ids) == StripesWithout(st.stripes, gone + ids)
    ensures ShardsWithout(now.shards, ids) == ShardsWithout(st.shards, gone + ids)
  {}

  lemma PathsLeft(shards: map<ShardKey, ShardRow>, disks: map<DiskId, Disk>, gone: set<StripeId>, ids: set<StripeId>)
    requires ids !! gone
    ensures PathsOf(ShardsWithout(shards, gone), disks, ids) == PathsOf(shards, disks, ids)
  {
    forall p | p in PathsOf(shards, disks, ids)
      ensures p in PathsOf(ShardsWithout(shards, gone), disks, ids)
    {}
  }

  lemma PathsBoth(shards: map<ShardKey, ShardRow>, disks: map<DiskId, Disk>, a: set<StripeId>, b: set<StripeId>)
    ensures PathsOf(shards, disks, a + b) == PathsOf(shards, disks, a) + PathsOf(shards, disks, b)
  {}

  lemma ClearedNext(st: State, now: State, disks: map<DiskId, Disk>, waiting: set<ObjectId>, o: ObjectId)
    requires ClearedRows(st, now, waiting) && o in waiting && waiting <= PendingObjects(st.objects)
    ensures ClearedRows(st, DeleteObject(now, o), waiting - {o})
    ensures ClearedPaths(st, disks, waiting - {o})
            == ClearedPaths(st, disks, waiting) + PathsOf(now.shards, disks, OwnedBy(now, o))
  {
    ClearedOne(st, now, waiting, o);
    hide Cleared, SweptPaths, PendingObjects, OwnedBy, PendingStripes, PathsOf, StripesWithout, ShardsWithout;
    var gone, own, pending := Cleared(st, waiting), OwnedBy(now, o), PendingStripes(st.stripes);
    WithoutMore(st, now, gone, own);
    PathsLeft(st.shards, disks, gone, own);
    PathsBoth(st.shards, disks, gone - pending, own);
    assert Cleared(st, waiting - {o}) - pending == (gone - pending) + own;
  }

  /** Only these objects wait to be dropped, and the files of all others are gone but for the stuck ones. */
  ghost predicate Sweeping(st: State, now: State, disks: map<DiskId, Disk>, before: map<Path, Slot>,
                           files: map<Path, Slot>, waiting: set<ObjectId>, stuck: set<Path>)
  {
    waiting == PendingObjects(now.objects) && waiting <= PendingObjects(st.objects) && PendingStripes(now.stripes) == {}
    && ClearedRows(st, now, waiting) && files == before - (ClearedPaths(st, disks, waiting) - stuck)
  }

  lemma SweepingStart(st: State, disks: map<DiskId, Disk>, before: map<Path, Slot>, files: map<Path, Slot>,
                      stuck: set<Path>)
    requires files == before - (SweptPaths(st.stripes, disks) - stuck)
    ensures Sweeping(st, DeleteStripes(st, PendingStripes(st.stripes)), disks, before, files,
                     PendingObjects(st.objects),
                     stuck)
  {
    ClearedStart(st, disks);
    ShrunkPending(st);
    hide ClearedPaths, ClearedRows, SweptPaths, PendingStripes, PendingObjects;
  }

  lemma SweepingNext(st: State, now: State, disks: map<DiskId, Disk>, before: map<Path, Slot>, files: map<Path, Slot>,
                     less: map<Path, Slot>, waiting: set<ObjectId>, o: ObjectId, stuck: set<Path>)
    requires Shrunk(st, now) && Sweeping(st, now, disks, before, files, waiting, stuck) && o in waiting
    requires less == files - (PathsOf(now.shards, disks, OwnedBy(now, o)) - stuck)
    ensures Sweeping(st, DeleteObject(now, o), disks, before, less, waiting - {o}, stuck)
  {
    ClearedNext(st, now, disks, waiting, o);
    ShrunkDelete(st, now, o, {});
    hide ClearedPaths, ClearedRows, PathsOf, PendingStripes, PendingObjects, DeleteObject, OwnedBy;
  }

  lemma SweepingParts(st: State, now: State, disks: map<DiskId, Disk>, before: map<Path, Slot>,
                      files: map<Path, Slot>, waiting: set<ObjectId>, stuck: set<Path>)
    requires Sweeping(st, now, disks, before, files, waiting, stuck)
    ensures waiting == PendingObjects(now.objects) && PendingStripes(now.stripes) == {}
    ensures files == before - (ClearedPaths(st, disks, waiting) - stuck)
  {}

  lemma PendingOnes(objects: map<ObjectId, ObjectRow>, stripes: map<StripeId, StripeRow>)
    ensures forall o :: o in PendingObjects(objects) <==> o in objects && !objects[o].committed
    ensures forall s :: s in PendingStripes(stripes) <==> s in stripes && stripes[s].state.Pending?
  {}
}
