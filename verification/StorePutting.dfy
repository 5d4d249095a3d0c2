/** Putting and deleting objects: what each step leaves visible and whose shards it spares. */
module StorePutting {
  import opened Wrappers
  import opened LinearAlgebra
  import opened Cauchy
  import opened Codec
  import opened StoreTypes
  import opened StoreState
  import opened StoreSteps
  import opened StoreViews
  import opened StoreReading
  import opened StoreWriting

  /** Some object, committed or not, has this key. */
  ghost predicate Taken(st: State, key: Key) {
    exists o :: o in st.objects && st.objects[o].key == key
  }

  /** The stripes of objects with other keys. */
  ghost function StripesNotOf(st: State, key: Key): set<StripeId> {
    set s | s in st.stripes && st.stripes[s].owner in st.objects && st.objects[st.stripes[s].owner].key != key
  }

  /** The stripes of the object with this key. */
  ghost function StripesOf(st: State, key: Key): set<StripeId> {
    set s | s in st.stripes && st.stripes[s].owner in st.objects && st.objects[st.stripes[s].owner].key == key
  }

  lemma StripesOfKey(st: State, hash: Vec -> Checksum, o: ObjectId)
    requires Consistent(st, hash) && o in st.objects
    ensures StripesOf(st, st.objects[o].key) == OwnedBy(st, o)
  {
    assert KeysUnique(st);
    hide Consistent;
  }

  lemma NoStripesOf(st: State, disks: map<DiskId, Disk>, key: Key)
    requires !Taken(st, key)
    ensures PathsOf(st.shards, disks, StripesOf(st, key)) == {}
  {}

  lemma OwnedParts(st: State, o: ObjectId)
    ensures OwnedBy(st, o) == OwnedStripes(st.stripes, o)
    ensures DeleteObject(st, o) == st.(objects := ObjectsWithout(st.objects, o),
                                       stripes := StripesWithout(st.stripes, OwnedStripes(st.stripes, o)),
                                       shards := ShardsWithout(st.shards, OwnedStripes(st.stripes, o)))
  {}

  lemma DeletedDiffers(st: State, o: ObjectId)
    requires o in st.objects
    ensures DeleteObject(st, o) != st
  {}

  lemma CacheLess(cache: map<StripeId, Vec>, ids: set<StripeId>, content: map<StripeId, Vec>)
    requires CacheMatches(cache, content)
    ensures CacheMatches(cache - ids, content)
  {}

  /** Removing an object harms no other object's shards. */
  lemma RemovedSpares(st: State, a: View, b: View, hash: Vec -> Checksum, o: ObjectId)
    requires o in st.objects && a.shards == st.shards && b.disks == a.disks
    requires FilesOutside(a.files, b.files, OwnedBy(st, o))
    requires b.shards == a.shards || b.shards == DeleteObject(st, o).shards
    ensures Spares(a, b, hash, StripesNotOf(st, st.objects[o].key))
  {
    assert RowsOutside(a.shards, b.shards, OwnedBy(st, o));
    assert StripesNotOf(st, st.objects[o].key) !! OwnedBy(st, o);
    WornSame(a.disks);
    hide *;
    OutsideSpares(a, b, hash, OwnedBy(st, o), StripesNotOf(st, st.objects[o].key));
  }

  /** The shard files that the rows of these stripes name, on registered disks. */
  function PathsOf(shards: map<ShardKey, ShardRow>, disks: map<DiskId, Disk>, ids: set<StripeId>): (r: set<Path>)
    ensures forall p :: p in r <==> ShardKey(p.stripe, p.idx) in shards && p.stripe in ids && p.disk in disks
                                    && shards[ShardKey(p.stripe, p.idx)].disk == Some(p.disk)
  {
    set key | key in shards && key.stripe in ids && shards[key].disk.Some? && shards[key].disk.value in disks
      :: Path(shards[key].disk.value, key.stripe, key.idx)
  }

  lemma FreeKeyInvisible(st: State, key: Key, data: Vec)
    requires !Taken(st, key)
    ensures !Holds(st, key, data) && !Exists(st, key)
  {}

  lemma RemovedNothing(st: State, key: Key)
    requires !Taken(st, key)
    ensures Removed(st, st, key)
  {
    forall data: Vec
      ensures !Holds(st, key, data)
    {
      FreeKeyInvisible(st, key, data);
    }
    hide Holds;
  }

  /** Deleting an object that has not been committed removes nothing from view. */
  lemma RemovedPending(st: State, b: State, hash: Vec -> Checksum, o: ObjectId)
    requires Consistent(st, hash) && o in st.objects && !st.objects[o].committed && SameVisible(st, b)
    ensures Removed(st, b, st.objects[o].key)
  {
    assert KeysUnique(st);
    hide Consistent, ObjectOk;
    forall data: Vec
      ensures !Holds(st, st.objects[o].key, data)
    {}
  }

  lemma KeyFreed(st: State, hash: Vec -> Checksum, o: ObjectId)
    requires Consistent(st, hash) && o in st.objects
    ensures !Taken(DeleteObject(st, o), st.objects[o].key)
  {
    assert KeysUnique(st);
    hide Consistent;
  }

  /** One more stripe extends the bytes written so far. */
  lemma WroteNext(a: State, b: State, hash: Vec -> Checksum, s: StripeId, o: ObjectId, seqno: nat, offset: nat,
                  data: Vec,
                  k: nat, m: nat)
    requires NextPlace(a, o, seqno, offset) && Wrote(a, b, hash, s, o, seqno, offset, data, k, m, false)
    requires a.used <= b.used && b.objects == a.objects
    ensures NextPlace(b, o, seqno + 1, offset + |data|) && b.layout[o] == a.layout[o] + [s]
    ensures Flatten(b.layout[o], b.content) == Flatten(a.layout[o], a.content) + data
  {
    hide StripeOk;
    var ids := a.layout[o];
    assert (ids + [s])[..|ids|] == ids;
    forall i | 0 <= i < |ids|
      ensures ids[i] in b.content && b.content[ids[i]] == a.content[ids[i]]
    {}
    FlattenSame(ids, a.content, b.content);
  }

  /** The stripes of an object, each of k + m shards, enough of them good and on different disks. */
  ghost predicate AllPlaced(st: State, v: View, hash: Vec -> Checksum, ids: seq<StripeId>, k: nat, m: nat, need: nat) {
    forall i :: 0 <= i < |ids| ==> PlacedStripe(st, v, hash, ids[i], k, m, need)
  }

  ghost predicate PlacedStripe(st: State, v: View, hash: Vec -> Checksum, s: StripeId, k: nat, m: nat, need: nat) {
    s in st.used && Profiled(st, s, k, m) && WellPlaced(v, hash, s, k + m, need) && RowsPresent(v, s, k + m)
  }

  ghost predicate Profiled(st: State, s: StripeId, k: nat, m: nat) {
    s in st.stripes && st.stripes[s].k == k && st.stripes[s].m == m
  }

  ghost predicate RowsPresent(v: View, s: StripeId, n: nat) {
    forall i: nat :: i < n ==> ShardKey(s, i) in v.shards
  }

  /** The rows of the stripes in keep are there still and name the same disks. */
  ghost predicate DisksStay(a: map<ShardKey, ShardRow>, b: map<ShardKey, ShardRow>, keep: set<StripeId>) {
    forall key :: key in a && key.stripe in keep ==> key in b && b[key].disk == a[key].disk
  }

  lemma WellPlacedStays(a: View, b: View, hash: Vec -> Checksum, s: StripeId, n: nat, need: nat, keep: set<StripeId>)
    requires WellPlaced(a, hash, s, n, need) && Spares(a, b, hash, keep) && s in keep
    requires DisksStay(a.shards, b.shards, keep) && RowsPresent(a, s, n)
    ensures WellPlaced(b, hash, s, n, need) && RowsPresent(b, s, n)
  {
    hide View.Read;
    assert Apart(b, s, n);
    SubsetSize(a.Good(hash, s, n).Keys, b.Good(hash, s, n).Keys);
  }

  lemma AllPlacedStays(a: State, b: State, v: View, w: View, hash: Vec -> Checksum, ids: seq<StripeId>, k: nat, m: nat,
                       need: nat, keep: set<StripeId>)
    requires AllPlaced(a, v, hash, ids, k, m, need) && Spares(v, w, hash, keep) && DisksStay(v.shards, w.shards, keep)
    requires forall i :: 0 <= i < |ids| ==> ids[i] in keep
    requires a.used <= b.used
    requires forall i :: 0 <= i < |ids| && Profiled(a, ids[i], k, m) ==> Profiled(b, ids[i], k, m)
    ensures AllPlaced(b, w, hash, ids, k, m, need)
  {
    hide WellPlaced, RowsPresent, Spares, DisksStay, Profiled;
    forall i | 0 <= i < |ids|
      ensures PlacedStripe(b, w, hash, ids[i], k, m, need)
    {
      assert PlacedStripe(a, v, hash, ids[i], k, m, need);
      WellPlacedStays(v, w, hash, ids[i], k + m, need, keep);
    }
  }

  lemma AllPlacedUsed(st: State, v: View, hash: Vec -> Checksum, ids: seq<StripeId>, k: nat, m: nat, need: nat)
    requires AllPlaced(st, v, hash, ids, k, m, need)
    ensures forall i :: 0 <= i < |ids| ==> ids[i] in st.used
  {
    hide WellPlaced, RowsPresent, Profiled;
  }

  lemma AllPlacedMore(st: State, v: View, hash: Vec -> Checksum, ids: seq<StripeId>, s: StripeId, k: nat, m: nat,
                      need: nat)
    requires AllPlaced(st, v, hash, ids, k, m, need) && PlacedStripe(st, v, hash, s, k, m, need)
    ensures AllPlaced(st, v, hash, ids + [s], k, m, need)
  {
    hide PlacedStripe;
  }

  lemma RowsStayDisks(a: map<ShardKey, ShardRow>, b: map<ShardKey, ShardRow>, keep: set<StripeId>)
    requires RowsStay(a, b)
    ensures DisksStay(a, b, keep)
  {}

  /** Every cached stripe holds that stripe's data. */
  ghost predicate CacheMatches(cache: map<StripeId, Vec>, content: map<StripeId, Vec>) {
    forall s :: s in cache ==> s in content && cache[s] == content[s]
  }

  /** Shards per stripe for new writes, given the number of disks that are not retired. */
  function ProfileFor(disks: nat, ecK: nat, ecM: nat): Option<(nat, nat)> {
    if disks >= ecK + ecM then Some((ecK, ecM))
    else if disks >= 2 then Some((1, Min(disks - 1, 2)))
    else if disks == 1 then Some((1, 0))
    else None
  }

  /** Without a profile of its own a stripe has at most as many shards as there are disks. With fewer disks than
      the configured profile needs, each of at most three disks gets a copy; with enough of them it is that profile. */
  lemma ProfileMeans(disks: nat, ecK: nat, ecM: nat)
    requires ecK + ecM > 0
    ensures var p := ProfileFor(disks, ecK, ecM);
            (p.None? <==> disks == 0)
            && (p.Some? ==> p.value.0 + p.value.1 <= disks)
            && (p.Some? && disks < ecK + ecM ==> p.value.0 == 1 && p.value.0 + p.value.1 == Min(disks, 3))
            && (disks >= ecK + ecM ==> p == Some((ecK, ecM)))
  {}

  /** The disks counted are exactly those that are not retired, and a given profile is not looked at twice. */
  lemma ChosenMeans(profile: Option<(nat, nat)>, disks: map<DiskId, Disk>, at: set<DiskId>, ecK: nat, ecM: nat)
    requires ecK + ecM > 0
    requires forall d :: d in at <==> d in disks && !disks[d].status.Retired?
    ensures var p := ChosenProfile(profile, disks, ecK, ecM);
            (profile.Some? ==> p == profile)
            && (profile.None? ==>
                  (p.None? <==> at == {})
                  && (p.Some? ==> p.value.0 + p.value.1 <= |at|)
                  && (p.Some? && |at| < ecK + ecM ==> p.value.0 == 1 && p.value.0 + p.value.1 == Min(|at|, 3))
                  && (|at| >= ecK + ecM ==> p == Some((ecK, ecM))))
  {
    assert at == Registered(disks);
    ProfileMeans(|at|, ecK, ecM);
    hide ProfileFor;
  }

  lemma StartedPlace(st: State, o: ObjectId, key: Key)
    ensures var b := InsertObject(st, o, key);
            NextPlace(b, o, 0, 0) && b.layout[o] == [] && b.objects[o] == ObjectRow(key, 0, 0, false) && o in b.objects
            && b.stripes == st.stripes && b.shards == st.shards && b.used == st.used && b.content == st.content
            && b.written == st.written
  {}

  lemma NextPlaceParts(st: State, o: ObjectId, seqno: nat, offset: nat)
    requires NextPlace(st, o, seqno, offset)
    ensures o in st.layout && seqno == |st.layout[o]| && forall i :: 0 <= i < |st.layout[o]| ==>
              st.layout[o][i] in st.content
    ensures offset == |Flatten(st.layout[o], st.content)|
  {}

  /** Between two states of a put: nothing is visible or harmed, and the object's stripes hold
      the data up to pos. */
  ghost predicate Progress(start: State, view: View, now: State, live: View, hash: Vec -> Checksum, o: ObjectId,
                           seqno: nat, pos: nat, data: Vec, k: nat, m: nat, need: nat)
  {
    Harmless(start, view, now, live, hash, o) && start.used <= now.used
    && NextPlace(now, o, seqno, pos) && pos <= |data| && Flatten(now.layout[o], now.content) == data[..pos]
    && AllPlaced(now, live, hash, now.layout[o], k, m, need)
  }

  ghost predicate Harmless(start: State, view: View, now: State, live: View, hash: Vec -> Checksum, o: ObjectId) {
    SameVisible(start, now) && Spares(view, live, hash, start.used) && RowsStay(view.shards, live.shards)
    && NewStripes(start, now, o)
  }

  lemma ProgressStart(st: State, v: View, hash: Vec -> Checksum, o: ObjectId, data: Vec, k: nat, m: nat, need: nat)
    requires Consistent(st, hash) && NextPlace(st, o, 0, 0)
    ensures Progress(st, v, st, v, hash, o, 0, 0, data, k, m, need)
  {
    NewStripesSame(st, hash, o);
    hide View.Read, Holds, Consistent, NewStripes;
  }

  lemma HarmlessNext(start: State, view: View, a: State, v: View, b: State, w: View, hash: Vec -> Checksum, o: ObjectId)
    requires Harmless(start, view, a, v, hash, o) && start.used <= a.used
    requires SameVisible(a, b) && Spares(v, w, hash, a.used) && RowsStay(v.shards, w.shards) && NewStripes(a, b, o)
    ensures Harmless(start, view, b, w, hash, o)
  {
    assert RowsStay(view.shards, w.shards);
    NewStripesTrans(start, a, b, o);
    SameVisibleTrans(start, a, b);
    SparesTrans(view, v, w, hash, start.used, a.used);
    hide *;
  }

  lemma ProgressNext(start: State, view: View, a: State, v: View, b: State, w: View, hash: Vec -> Checksum, s: StripeId,
                     o: ObjectId, seqno: nat, pos: nat, stop: nat, data: Vec, k: nat, m: nat, need: nat)
    requires Progress(start, view, a, v, hash, o, seqno, pos, data, k, m, need) && pos <= stop <= |data|
    requires SameVisible(a, b) && Spares(v, w, hash, a.used) && RowsStay(v.shards, w.shards) && NewStripes(a, b, o)
    requires Wrote(a, b, hash, s, o, seqno, pos, data[pos..stop], k, m, false) && a.used <= b.used
    requires WellPlaced(w, hash, s, k + m, need) && w.shards == b.shards
    ensures Progress(start, view, b, w, hash, o, seqno + 1, stop, data, k, m, need)
  {
    hide *;
    ProgressParts(start, view, a, v, hash, o, seqno, pos, data, k, m, need);
    HarmlessNext(start, view, a, v, b, w, hash, o);
    WroteParts(a, b, hash, s, o, seqno, pos, data[pos..stop], k, m, false, w);
    WroteNext(a, b, hash, s, o, seqno, pos, data[pos..stop], k, m);
    AllPlacedUsed(a, v, hash, a.layout[o], k, m, need);
    RowsStayDisks(v.shards, w.shards, a.used);
    WroteProfile(a, b, hash, s, o, seqno, pos, data[pos..stop], k, m, false);
    AllPlacedStays(a, b, v, w, hash, a.layout[o], k, m, need, a.used);
    PlacedFrom(b, w, hash, s, k, m, need);
    AllPlacedMore(b, w, hash, a.layout[o], s, k, m, need);
    assert data[..pos] + data[pos..stop] == data[..stop];
    NextPlaceParts(b, o, seqno + 1, stop);
    ProgressMade(start, view, b, w, hash, o, seqno + 1, stop, data, k, m, need);
  }

  lemma PlacedFrom(st: State, v: View, hash: Vec -> Checksum, s: StripeId, k: nat, m: nat, need: nat)
    requires s in st.used && Profiled(st, s, k, m) && WellPlaced(v, hash, s, k + m, need) && RowsPresent(v, s, k + m)
    ensures PlacedStripe(st, v, hash, s, k, m, need)
  {}

  /** Writing a stripe changes no other stripe's profile. */
  lemma WroteProfile(a: State, b: State, hash: Vec -> Checksum, s: StripeId, o: ObjectId, seqno: nat, offset: nat,
                     data: Vec, k: nat, m: nat, staged: bool)
    requires Wrote(a, b, hash, s, o, seqno, offset, data, k, m, staged)
    ensures Profiled(b, s, k, m)
    ensures forall t: StripeId, x: nat, y: nat :: t in a.used && Profiled(a, t, x, y) ==> Profiled(b, t, x, y)
  {
    hide StripeOk;
  }

  lemma ProgressMade(start: State, view: View, now: State, live: View, hash: Vec -> Checksum, o: ObjectId, seqno: nat,
                     pos: nat, data: Vec, k: nat, m: nat, need: nat)
    requires Harmless(start, view, now, live, hash, o) && start.used <= now.used && NextPlace(now, o, seqno, pos)
    requires pos <= |data| && o in now.layout
             && (forall i :: 0 <= i < |now.layout[o]| ==> now.layout[o][i] in now.content)
    requires Flatten(now.layout[o], now.content) == data[..pos]
    requires AllPlaced(now, live, hash, now.layout[o], k, m, need)
    ensures Progress(start, view, now, live, hash, o, seqno, pos, data, k, m, need)
  {
    hide Harmless, AllPlaced;
  }

  lemma ProgressParts(start: State, view: View, now: State, live: View, hash: Vec -> Checksum, o: ObjectId, seqno: nat,
                      pos: nat, data: Vec, k: nat, m: nat, need: nat)
    requires Progress(start, view, now, live, hash, o, seqno, pos, data, k, m, need)
    ensures Harmless(start, view, now, live, hash, o) && start.used <= now.used && pos <= |data|
    ensures NextPlace(now, o, seqno, pos) && o in now.objects
    ensures o in now.layout && (forall i :: 0 <= i < |now.layout[o]| ==> now.layout[o][i] in now.content)
    ensures Flatten(now.layout[o], now.content) == data[..pos]
    ensures AllPlaced(now, live, hash, now.layout[o], k, m, need)
  {
    hide Harmless, AllPlaced;
  }

  lemma HarmlessParts(start: State, view: View, now: State, live: View, hash: Vec -> Checksum, o: ObjectId)
    requires Harmless(start, view, now, live, hash, o)
    ensures SameVisible(start, now) && Spares(view, live, hash, start.used) && RowsStay(view.shards, live.shards)
    ensures NewStripes(start, now, o) && start.used <= now.used
  {
    hide SameVisible, Spares, RowsStay;
  }

  // ---------------------------------------------------------------- how large stripes and shards are

  /** The shards of a stripe of so many bytes have the least size that holds it, or the largest allowed. */
  predicate Sized(row: StripeRow, length: nat, cap: nat) {
    row.k > 0 && row.len == length && row.size == ShardSizeFor(row.k, length, Some(cap))
  }

  /** One stripe of so many bytes was added to object o. */
  ghost predicate Extended(a: State, b: State, o: ObjectId, length: nat, cap: nat) {
    o in a.layout && o in b.layout && |b.layout[o]| == |a.layout[o]| + 1
    && b.layout[o][..|a.layout[o]|] == a.layout[o]
    && var s := b.layout[o][|a.layout[o]|];
       s in b.stripes && s !in a.layout[o] && b.stripes == a.stripes[s := b.stripes[s]]
       && Sized(b.stripes[s], length, cap)
  }

  /** These stripes are full. */
  ghost predicate Full(stripes: map<StripeId, StripeRow>, ids: seq<StripeId>, n: nat, full: nat, cap: nat) {
    n <= |ids| && forall i :: 0 <= i < n ==> ids[i] in stripes && Sized(stripes[ids[i]], full, cap)
  }

  /** Every stripe of an object but its last is full; the last one is empty only where it is the only one. */
  ghost predicate Tiled(stripes: map<StripeId, StripeRow>, ids: seq<StripeId>, full: nat, cap: nat) {
    |ids| > 0
    && Full(stripes, ids, |ids| - 1, full, cap)
    && var s := ids[|ids| - 1];
       s in stripes && stripes[s].len <= full && Sized(stripes[s], stripes[s].len, cap)
       && (|ids| > 1 ==> stripes[s].len > 0)
  }

  /** The stripes of object o are so, a full one having k data shards of the largest size allowed. */
  ghost predicate TiledObject(st: State, o: ObjectId, k: nat, cap: nat) {
    o in st.layout && Tiled(st.stripes, st.layout[o], Capacity(k, cap), cap)
  }

  lemma TiledSame(a: State, b: State, o: ObjectId, k: nat, cap: nat)
    requires TiledObject(a, o, k, cap) && a.stripes == b.stripes && a.layout == b.layout
    ensures TiledObject(b, o, k, cap)
  {
    hide Tiled;
  }

  ghost predicate AllFull(st: State, o: ObjectId, seqno: nat, full: nat, cap: nat) {
    o in st.layout && |st.layout[o]| == seqno && Full(st.stripes, st.layout[o], seqno, full, cap)
  }

  lemma NothingTiled(st: State, o: ObjectId, full: nat, cap: nat)
    requires NextPlace(st, o, 0, 0)
    ensures AllFull(st, o, 0, full, cap)
  {}

  lemma FullTiled(st: State, o: ObjectId, seqno: nat, k: nat, full: nat, cap: nat)
    requires AllFull(st, o, seqno, full, cap) && seqno > 0 && full > 0 && full == Capacity(k, cap)
    ensures TiledObject(st, o, k, cap)
  {
    hide Sized;
    assert Sized(st.stripes[st.layout[o][seqno - 1]], full, cap) ==>
             st.stripes[st.layout[o][seqno - 1]].len == full by {
      SizedLength(st.stripes[st.layout[o][seqno - 1]], full, cap);
    }
  }

  lemma SizedLength(row: StripeRow, length: nat, cap: nat)
    ensures Sized(row, length, cap) ==> row.len == length
  {}

  lemma TiledNext(a: State, b: State, o: ObjectId, seqno: nat, length: nat, k: nat, full: nat, cap: nat)
    requires AllFull(a, o, seqno, full, cap) && Extended(a, b, o, length, cap) && length <= full == Capacity(k, cap)
    requires seqno > 0 ==> length > 0
    ensures length == full ==> AllFull(b, o, seqno + 1, full, cap)
    ensures TiledObject(b, o, k, cap)
  {
    var s := b.layout[o][seqno];
    SizedLength(b.stripes[s], length, cap);
    hide Sized;
    forall i | 0 <= i < seqno
      ensures b.layout[o][i] == a.layout[o][i] && b.layout[o][i] in b.stripes
              && Sized(b.stripes[b.layout[o][i]], full, cap)
    {
      assert b.layout[o][..seqno][i] == b.layout[o][i];
      assert a.layout[o][i] in a.layout[o];
    }
  }

  lemma WroteSized(a: State, b: State, hash: Vec -> Checksum, s: StripeId, o: ObjectId, seqno: nat, offset: nat,
                   data: Vec, k: nat, m: nat, staged: bool, size: nat, cap: nat)
    requires Wrote(a, b, hash, s, o, seqno, offset, data, k, m, staged) && k > 0
    requires b.stripes[s].size == size == ShardSizeFor(k, |data|, Some(cap)) && b.stripes[s].len == |data|
    ensures Sized(b.stripes[s], |data|, cap)
  {
    hide StripeOk, ShardSizeFor;
  }

  lemma WroteExtends(a: State, b: State, hash: Vec -> Checksum, s: StripeId, o: ObjectId, seqno: nat, offset: nat,
                     data: Vec, k: nat, m: nat, cap: nat)
    requires Wrote(a, b, hash, s, o, seqno, offset, data, k, m, false) && NextPlace(a, o, seqno, offset)
    requires s in b.stripes && Sized(b.stripes[s], |data|, cap)
    ensures Extended(a, b, o, |data|, cap)
  {
    hide StripeOk, Sized;
    assert (a.layout[o] + [s])[..|a.layout[o]|] == a.layout[o];
  }

  /** What k shards of the largest size allowed hold. */
  function Capacity(k: nat, cap: nat): nat {
    k * cap
  }

  lemma CapacityIs(k: nat, cap: nat)
    ensures Capacity(k, cap) == k * cap
  {}

  lemma PositiveCapacity(k: nat, m: nat, cap: nat)
    requires ValidParameters(k, m) && cap > 0
    ensures Capacity(k, cap) > 0
  {}

  lemma FreeKey(st: State, key: Key)
    requires !Taken(st, key)
    ensures forall p :: p in st.objects ==> st.objects[p].key != key
  {}

  lemma InsertParts(st: State, o: ObjectId, key: Key)
    ensures InsertObject(st, o, key)
            == st.(objects := st.objects[o := ObjectRow(key, 0, 0, false)], layout := st.layout[o := []])
  {}

  lemma FinishObjectParts(st: State, o: ObjectId, size: nat, count: nat)
    requires o in st.objects
    ensures CommitObject(st, o, size, count)
            == st.(objects := st.objects[o := st.objects[o].(size := size, stripeCount := count, committed := true)])
  {}

  /** The stripes of an object that a did not know were drawn since. */
  lemma OwnedAreNew(a: State, b: State, hash: Vec -> Checksum, o: ObjectId)
    requires Consistent(a, hash) && o !in a.objects && NewStripes(a, b, o)
    ensures OwnedBy(b, o) !! a.used
  {
    hide ObjectOk;
  }

  lemma NewStripesFrom(a: State, b: State, c: State, o: ObjectId)
    requires NewStripes(b, c, o) && a.stripes == b.stripes && a.used == b.used
    ensures NewStripes(a, c, o)
  {}

  lemma NewStripesTo(a: State, b: State, c: State, o: ObjectId)
    requires NewStripes(a, b, o) && b.stripes == c.stripes && b.used == c.used
    ensures NewStripes(a, c, o)
  {}

  /** Stripes that go are no obstacle. */
  lemma NewStripesLess(a: State, b: State, c: State, o: ObjectId, ids: set<StripeId>)
    requires NewStripes(a, b, o) && b.used == c.used
    requires c.stripes == b.stripes || c.stripes == StripesWithout(b.stripes, ids)
    ensures NewStripes(a, c, o)
  {}

  lemma OwnedNewSpares(a: View, b: View, hash: Vec -> Checksum, owned: set<StripeId>, keep: set<StripeId>)
    requires FilesOutside(a.files, b.files, owned) && b.disks == a.disks && keep !! owned
    requires b.shards == a.shards || b.shards == ShardsWithout(a.shards, owned)
    ensures Spares(a, b, hash, keep)
  {
    WornSame(a.disks);
    assert RowsOutside(a.shards, b.shards, owned);
    hide *;
    OutsideSpares(a, b, hash, owned, keep);
  }

  lemma AddedAfter(a: State, b: State, c: State, key: Key, data: Vec)
    requires SameVisible(a, b) && Added(b, c, key, data)
    ensures Added(a, c, key, data)
  {
    hide Holds;
  }

  lemma AllPlacedSame(a: State, b: State, v: View, hash: Vec -> Checksum, ids: seq<StripeId>, k: nat, m: nat, need: nat)
    requires AllPlaced(a, v, hash, ids, k, m, need) && a.used == b.used && a.stripes == b.stripes
    ensures AllPlaced(b, v, hash, ids, k, m, need)
  {
    hide WellPlaced, RowsPresent;
  }

  function Registered(disks: map<DiskId, Disk>): set<DiskId> {
    set d | d in disks && !disks[d].status.Retired?
  }

  function ChosenProfile(profile: Option<(nat, nat)>, disks: map<DiskId, Disk>, ecK: nat, ecM: nat)
      : Option<(nat, nat)>
  {
    if profile.Some? then profile else ProfileFor(|Registered(disks)|, ecK, ecM)
  }

  lemma CommitKeeps(st: State, o: ObjectId, size: nat, count: nat)
    requires o in st.objects
    ensures var b := CommitObject(st, o, size, count);
            o in b.objects && b.objects[o].committed && b.objects[o].key == st.objects[o].key
  {}

  lemma NotExists(st: State, key: Key, o: ObjectId)
    requires !Exists(st, key) && o in st.objects && st.objects[o].key == key
    ensures !st.objects[o].committed
  {}

  lemma ExistsOf(st: State, key: Key, o: ObjectId)
    requires o in st.objects && st.objects[o].committed && st.objects[o].key == key
    ensures Exists(st, key)
  {}

  lemma KeepIsUsed(st: State, hash: Vec -> Checksum, key: Key)
    requires Consistent(st, hash)
    ensures StripesNotOf(st, key) <= st.used
  {
    hide ObjectOk;
  }

  lemma WroteParts(a: State, b: State, hash: Vec -> Checksum, s: StripeId, o: ObjectId, seqno: nat, offset: nat,
                   data: Vec, k: nat, m: nat, staged: bool, v: View)
    requires Wrote(a, b, hash, s, o, seqno, offset, data, k, m, staged) && v.shards == b.shards
    ensures s in b.stripes && s in b.used && b.objects == a.objects && s in b.content && RowsPresent(v, s, k + m)
    ensures !staged ==> o in b.layout && ValidParameters(k, m)
  {
    StripeOkParts(b.stripes[s], data, s, b.shards, hash);
    hide StripeOk;
  }
}
