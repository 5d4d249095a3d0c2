/** The erasure-coded object store: put, read, delete, repair, restripe and crash recovery. */
module ObjectStore {
  import opened Wrappers
  import opened LinearAlgebra
  import opened Codec
  import opened Cauchy
  import opened StoreTypes
  import opened StoreState
  import opened StoreSteps
  import opened StoreViews
  import opened Placement
  import opened DiskErrors
  import opened StoreReading
  import opened StoreWriting
  import opened StorePutting
  import opened StoreDecoding
  import opened StoreRestriping
  import opened StorePending
  import opened StoreRepairing
  import opened Sequences

  datatype StoreError =
    | NoDisks | WriteFailed | ObjectNotFound | UnrecoverableStripe | BadInput(error: CodecError) | ReaderFailed
    | Crashed

  class ObjectStore {
    const hash: Vec -> Checksum
    const backend: Kernels.Backend
    const ecK: nat
    const ecM: nat
    const maxShard: nat
    const minExtra: nat
    const errorThreshold: nat
    const cacheBudget: nat

    var disks: map<DiskId, Disk>
    var files: map<Path, Slot>
    var objects: map<ObjectId, ObjectRow>
    var stripes: map<StripeId, StripeRow>
    var shards: map<ShardKey, ShardRow>
    var cache: map<StripeId, Vec>
    /** Stripe ids drawn so far; a random id is never drawn twice. */
    var used: set<StripeId>
    ghost var content: map<StripeId, Vec>
    ghost var layout: map<ObjectId, seq<StripeId>>
    ghost var written: set<Path>

    ghost function Now(): State
      reads this`objects, this`stripes, this`shards, this`content, this`layout, this`used, this`written
    {
      State(objects, stripes, shards, content, layout, used, written)
    }

    ghost function Live(): View
      reads this`disks, this`files, this`shards
    {
      View(disks, files, shards)
    }

    lemma NowParts()
      ensures Now() == State(objects, stripes, shards, content, layout, used, written)
    {}

    lemma ValidParts()
      ensures Valid()
              <==> maxShard > 0 && Consistent(Now(), hash) && content.Keys <= used && CacheMatches(cache, content)
    {}

    lemma LiveParts()
      ensures Live().disks == disks && Live().files == files && Live().shards == shards
    {}

    ghost predicate Valid()
      reads this`objects, this`stripes, this`shards, this`content, this`layout, this`used, this`written, this`cache
    {
      maxShard > 0 && Consistent(Now(), hash) && content.Keys <= used && CacheMatches(cache, content)
    }

    // -------------------------------------------------------------- disks and shard files

    /** Count an I/O error; past the threshold an online disk becomes degraded. */
    method RecordError(d: DiskId)
      requires d in disks
      modifies `disks
      ensures disks == Reported(old(disks), d, errorThreshold)
      ensures Worn(old(disks), disks) && Faulted(old(disks), disks) == {d}
    {
      var disk := disks[d].(errors := disks[d].errors + 1);
      disks := disks[d := if disk.status.Online? && disk.errors >= errorThreshold then disk.(status := Degraded)
                     else disk];
    }

    /** Atomically replace a shard file. A failure may come before or after the replacement. */
    method WriteShard(d: DiskId, h: ShardHeader, payload: Vec) returns (ok: bool)
      modifies `files, `written
      ensures old(written) <= written
      ensures var p := Path(d, h.stripe, h.index); var after := old(files)[p := File(Some(h), payload)];
              if ok then files == after && p in written else files == after || files == old(files)
      ensures written <= old(written) + {Path(d, h.stripe, h.index)}
    {
      if * {
        return false;
      }
      var p := Path(d, h.stripe, h.index);
      files := files[p := File(Some(h), payload)];
      written := written + {p};
      ok := *;
    }

    /** Remove a shard file; a refusal is ignored. */
    method DeleteShard(p: Path, refused: bool)
      modifies `files
      ensures files == if refused then old(files) else old(files) - {p}
    {
      if !refused {
        files := files - {p};
      }
    }

    /** Read one shard; on failure record why. */
    method TryReadShard(s: StripeId, i: nat, row: ShardRow, diskMap: map<DiskId, Disk>) returns (r: Option<Vec>)
      requires ShardKey(s, i) in shards && shards[ShardKey(s, i)] == row && Worn(diskMap, disks)
      modifies `shards, `disks
      ensures r == old(Live()).Read(hash, s, i)
      ensures shards == old(shards)[ShardKey(s, i) := row.(state := Observed(old(disks), files, hash, s, i, row))]
      ensures disks == if ReadFaults(old(disks), files, hash, s, i, row)
                       then Reported(old(disks), row.disk.value, errorThreshold) else old(disks)
      ensures Worn(old(disks), disks) && Marked(old(shards), shards) && SameReads(old(Live()), Live(), hash)
      ensures SameRows(old(shards), shards, {ShardKey(s, i)})
      ensures r.Some? ==> shards == old(shards)
    {
      hide ReadShard;
      StaleDisks(diskMap, disks, files, hash, s, i, row);
      if !Attempted(diskMap, row) {
        return None;
      }
      ghost var before := Live();
      var key := ShardKey(s, i);
      match ReadShard(files, hash, Path(row.disk.value, s, i), row.checksum)
      case Payload(p) =>
        return Some(p);
      case IsMissing =>
        shards := shards[key := row.(state := Missing)];
        MarkKeepsReads(before, Live(), hash, key, Missing);
        return None;
      case IsCorrupt =>
        shards := shards[key := row.(state := Corrupt)];
        MarkKeepsReads(before, Live(), hash, key, Corrupt);
        return None;
      case IsFaulty =>
        RecordError(row.disk.value);
        HealthKeepsReads(before, Live(), hash);
        return None;
    }

    // -------------------------------------------------------------- reading

    /** Read shards first..last in turn until enough are in hand. */
    method ReadShards(s: StripeId, first: nat, last: nat, enough: nat, rows: map<ShardKey, ShardRow>,
                      diskMap: map<DiskId, Disk>, sofar: map<nat, Vec>)
      returns (got: map<nat, Vec>)
      requires first <= last && Worn(diskMap, disks) && Collected(sofar, Live(), hash, s, first)
      requires UpToDate(rows, shards, s, first, last)
      modifies `shards, `disks
      ensures Worn(old(disks), disks) && Marked(old(shards), shards) && SameReads(old(Live()), Live(), hash)
      ensures Collected(got, old(Live()), hash, s, last) && sofar.Keys <= got.Keys
      ensures |got| >= enough || AllSought(got, old(Live()), hash, s, first, last)
      ensures RowsAfter(old(shards), shards, s, last) && Elsewhere(old(Live()), Live(), {s})
    {
      hide *;
      got := sofar;
      ghost var before := Live();
      LiveParts();
      NothingRead(before, hash);
      NothingSought(got, before, hash, s, first, last);
      ElsewhereSame(before, {s});
      var i := first;
      while i < last && |got| < enough
        invariant first <= i <= last
        invariant Worn(before.disks, disks) && Worn(diskMap, disks)
        invariant Marked(before.shards, shards) && SameReads(before, Live(), hash)
        invariant Collected(got, before, hash, s, i) && sofar.Keys <= got.Keys
        invariant AllSought(got, before, hash, s, first, i)
        invariant UpToDate(rows, shards, s, i, last) && RowsAfter(before.shards, shards, s, last)
        invariant Elsewhere(before, Live(), {s})
      {
        ghost var mid, table, health := Live(), shards, disks;
        LiveParts();
        UpToDateRow(rows, shards, s, i, last);
        var r := TryReadShard(s, i, rows[ShardKey(s, i)], diskMap);
        ReadOne(before, mid, Live(), hash, s, i);
        MarkedTrans(before.shards, table, shards);
        WornTrans(before.disks, health, disks);
        WornTrans(diskMap, health, disks);
        UpToDateNext(rows, table, shards, s, i, last);
        RowsAfterNext(before.shards, table, shards, s, i, last);
        LiveParts();
        MarkElsewhere(mid, Live(), s, i);
        ElsewhereTrans(before, mid, Live(), {s}, {s});
        CollectOne(got, before, hash, s, i, r);
        SoughtNext(got, before, hash, s, first, i, r);
        if r.Some? {
          got := got[i := r.value];
        }
        i := i + 1;
      }
      CollectedMore(got, before, hash, s, i, last);
    }

    /** Parity shards as long as fewer than k are in hand, after all data shards were sought. */
    method CollectParity(s: StripeId, k: nat, m: nat, rows: map<ShardKey, ShardRow>, diskMap: map<DiskId, Disk>,
                         first: map<nat, Vec>, ghost before: View)
      returns (got: map<nat, Vec>)
      requires AllRows(rows, s, k + m) && RowsAfter(rows, shards, s, k) && rows == before.shards
      requires Worn(diskMap, disks) && diskMap == before.disks && Marked(rows, shards)
               && SameReads(before, Live(), hash)
      requires Collected(first, before, hash, s, k) && AllSought(first, before, hash, s, 0, k) && |first| < k
      requires Elsewhere(before, Live(), {s})
      modifies `shards, `disks
      ensures Elsewhere(before, Live(), {s})
      ensures Worn(before.disks, disks) && Marked(before.shards, shards) && SameReads(before, Live(), hash)
      ensures Collected(got, before, hash, s, k + m) && (|got| >= k || AllSought(got, before, hash, s, 0, k + m))
    {
      hide *;
      LiveParts();
      ghost var mid := Live();
      CollectedSame(first, before, mid, hash, s, k);
      UpToDateFrom(rows, shards, s, k, k + m, k + m);
      got := ReadShards(s, k, k + m, k, rows, diskMap, first);
      LiveParts();
      CollectedSame(got, mid, before, hash, s, k + m);
      ReadInTwo(first, got, before, mid, hash, s, k, m);
      SameTrans(before, mid, Live(), hash);
      ElsewhereTrans(before, mid, Live(), {s}, {s});
      MarkedTrans(rows, mid.shards, shards);
      WornTrans(diskMap, mid.disks, disks);
    }

    /** The data shards, and parity shards only as long as fewer than k are in hand. */
    method Collect(s: StripeId, k: nat, m: nat) returns (got: map<nat, Vec>)
      requires AllRows(shards, s, k + m)
      modifies `shards, `disks
      ensures Worn(old(disks), disks) && Marked(old(shards), shards) && SameReads(old(Live()), Live(), hash)
      ensures Collected(got, old(Live()), hash, s, k + m) && Elsewhere(old(Live()), Live(), {s})
      ensures |old(Live()).Good(hash, s, k)| >= k ==> RowsAfter(old(shards), shards, s, k)
      ensures |got| >= k <==> |old(Live()).Good(hash, s, k + m)| >= k
    {
      hide *;
      LiveParts();
      ghost var before := Live();
      NothingRead(before, hash);
      CollectedNone(before, hash, s);
      var rows, diskMap := shards, disks;
      UpToDateFrom(rows, rows, s, 0, k, k + m);
      got := ReadShards(s, 0, k, k, rows, diskMap, map[]);
      EnoughCollected(got, before, hash, s, k, k);
      if |got| < k {
        got := CollectParity(s, k, m, rows, diskMap, got, before);
      } else {
        CollectedMore(got, before, hash, s, k, k + m);
      }
      EnoughCollected(got, before, hash, s, k + m, k);
    }

    /** Collect and decode, without touching the stripe's row. */
    method Decode(s: StripeId, row: StripeRow) returns (r: Option<Vec>)
      requires Valid() && Injective(hash)
      requires s in content && StripeOk(row, content[s], s, shards, hash)
      modifies `shards, `disks
      ensures Marked(old(shards), shards) && Elsewhere(old(Live()), Live(), {s})
      ensures Worn(old(disks), disks) && SameReads(old(Live()), Live(), hash)
      ensures r.Some? <==> |old(Live()).Good(hash, s, row.k + row.m)| >= row.k
      ensures r.Some? ==> r.value == content[s]
    {
      hide *;
      ghost var before := Live();
      LiveParts();
      StripeOkParts(row, content[s], s, shards, hash);
      var rs := new ReedSolomon(row.k, row.m, backend);
      var got := Collect(s, row.k, row.m);
      CollectedFromStripe(got, before, hash, s, row, content[s]);
      var data := rs.DecodeBytes(got, row.len, row.size);
      if data.Err? {
        return None;
      }
      return Some(data.value);
    }

    /** Decode a stripe from its data shards, and from parity where those fail. */
    method ReadStripe(s: StripeId) returns (r: Result<Vec, StoreError>)
      requires Valid() && Injective(hash)
      requires s in stripes && s in content && !stripes[s].state.Pending?
      requires StripeOk(stripes[s], content[s], s, shards, hash)
      modifies `shards, `disks, `stripes
      ensures Valid() && SameVisible(old(Now()), Now()) && AllKept(old(Now()), Now(), hash)
      ensures Worn(old(disks), disks) && SameReads(old(Live()), Live(), hash)
      ensures Marked(old(shards), shards) && Elsewhere(old(Live()), Live(), {s})
      ensures r.Ok? <==> |old(Live()).Good(hash, s, old(stripes[s].k + stripes[s].m))| >= old(stripes[s].k)
      ensures r.Ok? ==> r.value == content[s] && stripes == old(stripes)
      ensures r.Err? ==>
                r.error.UnrecoverableStripe? && stripes == old(stripes)[s := old(stripes[s]).(state := Unrecoverable)]
    {
      hide View.Read, Readable, Injective, Consistent, SameVisible, AllKept, StripeOk, Marked, SameReads, Worn,
      Elsewhere;
      ghost var start := Now();
      var row := stripes[s];
      var data := Decode(s, row);
      MarkedStep(start, Now(), hash);
      if data.Some? {
        return Ok(data.value);
      }
      ghost var read := Now();
      stripes := stripes[s := stripes[s].(state := Unrecoverable)];
      SetStripeStateStep(read, hash, s, Unrecoverable, row.scrubbed);
      SetStateKept(read, hash, s, Unrecoverable, row.scrubbed);
      AllKeptTrans(start, read, Now(), hash);
      SameVisibleTrans(start, read, Now());
      return Err(UnrecoverableStripe);
    }

    /** A stripe's data, from the cache or from its shards. */
    method StripeData(s: StripeId) returns (r: Result<Vec, StoreError>)
      requires Valid() && Injective(hash)
      requires s in stripes && s in content && !stripes[s].state.Pending?
      requires StripeOk(stripes[s], content[s], s, shards, hash)
      modifies `shards, `disks, `stripes, `cache
      ensures Valid() && SameVisible(old(Now()), Now()) && AllKept(old(Now()), Now(), hash)
      ensures Worn(old(disks), disks) && SameReads(old(Live()), Live(), hash)
      ensures |old(Live()).Good(hash, s, old(stripes[s].k + stripes[s].m))| >= old(stripes[s].k) ==> r.Ok?
      ensures r.Ok? ==> r.value == content[s]
      ensures r.Err? ==> r.error.UnrecoverableStripe?
      ensures Elsewhere(old(Live()), Live(), {s})
    {
      hide *;
      if s in cache {
        Unchanged();
        ElsewhereSame(Live(), {s});
        CacheParts();
        return Ok(cache[s]);
      }
      r := ReadStripe(s);
      if r.Ok? {
        CachePut(s, r.value);
      }
    }

    lemma CacheParts()
      requires Valid()
      ensures forall s :: s in cache ==> s in content && cache[s] == content[s]
    {
      hide Consistent;
    }

    lemma Unchanged()
      ensures SameVisible(Now(), Now()) && AllKept(Now(), Now(), hash) && Worn(disks, disks)
      ensures SameReads(Live(), Live(), hash)
    {}

    /** Keep a decoded stripe that fits the budget and evict others to make room. */
    method CachePut(s: StripeId, data: Vec)
      requires Valid() && s in content && data == content[s]
      modifies `cache
      ensures Valid()
      ensures forall t :: t in cache ==> t == s || t in old(cache)
      ensures |data| > cacheBudget ==> cache == old(cache)
    {
      hide Consistent;
      if |data| > cacheBudget {
        return;
      }
      var evicted: set<StripeId> := *;
      cache := cache[s := data] - evicted;
    }

    // -------------------------------------------------------------- listing and ranges

    lemma Listing(o: ObjectId)
      requires Valid() && o in objects
      ensures o in layout
      ensures forall s :: s in stripes && stripes[s].owner == o && !stripes[s].state.Pending? ==>
                stripes[s].seqno < |layout[o]| && layout[o][stripes[s].seqno] == s
      ensures forall i :: 0 <= i < |layout[o]| ==>
                layout[o][i] in stripes && stripes[layout[o][i]].owner == o
                && !stripes[layout[o][i]].state.Pending? && stripes[layout[o][i]].seqno == i
    {
      hide PlaceOk, StripeOk, Flatten;
      assert ObjectOk(Now(), hash, o);
      forall i: nat | i < |layout[o]|
        ensures layout[o][i] in stripes && stripes[layout[o][i]].owner == o
                && !stripes[layout[o][i]].state.Pending? && stripes[layout[o][i]].seqno == i
      {
        PlaceParts(Now(), hash, o, layout[o], i);
      }
    }

    /** The visible stripes of an object in order of their sequence numbers. */
    method ListStripes(o: ObjectId) returns (ids: seq<StripeId>)
      requires Valid() && o in objects
      ensures o in layout && ids == layout[o]
    {
      hide *;
      ids := [];
      var mine := set s | s in stripes && stripes[s].owner == o && !stripes[s].state.Pending?;
      ListingRemaining(o, mine);
      ghost var list := layout[o];
      while mine != {}
        invariant |ids| <= |list| && ids == list[..|ids|] && mine <= stripes.Keys
        invariant Remaining(mine, stripes, list, |ids|)
        decreases mine
      {
        var s := Earliest(mine);
        RemainingNext(mine, stripes, list, |ids|, s);
        ids := ids + [s];
        mine := mine - {s};
      }
      if |ids| < |list| {
        RemainingHead(mine, stripes, list, |ids|);
      }
    }

    lemma ListingRemaining(o: ObjectId, mine: set<StripeId>)
      requires Valid() && o in objects
      requires mine == set s | s in stripes && stripes[s].owner == o && !stripes[s].state.Pending?
      ensures o in layout && Remaining(mine, stripes, layout[o], 0)
    {
      Listing(o);
      hide Valid;
    }

    method Earliest(mine: set<StripeId>) returns (s: StripeId)
      requires mine != {} && mine <= stripes.Keys
      ensures s in mine && forall t :: t in mine ==> stripes[s].seqno <= stripes[t].seqno
    {
      s :| s in mine;
      var rest := mine - {s};
      while rest != {}
        invariant rest <= mine && s in mine
        invariant forall t :: t in mine && t !in rest ==> stripes[s].seqno <= stripes[t].seqno
        decreases rest
      {
        var t :| t in rest;
        if stripes[t].seqno < stripes[s].seqno {
          s := t;
        }
        rest := rest - {t};
      }
    }

    method FindObject(key: Key) returns (r: Option<ObjectId>)
      ensures r.Some? ==> r.value in objects && objects[r.value].committed && objects[r.value].key == key
      ensures r.None? ==> !Exists(Now(), key)
    {
      if o :| o in objects && objects[o].committed && objects[o].key == key {
        return Some(o);
      }
      return None;
    }

    lemma HeldBytes(key: Key, o: ObjectId)
      requires Valid() && o in objects && objects[o].committed && objects[o].key == key
      requires o in layout && forall i :: 0 <= i < |layout[o]| ==> layout[o][i] in content
      ensures forall data :: Holds(Now(), key, data) ==> data == Flatten(layout[o], content)
      ensures objects[o].size == |Flatten(layout[o], content)|
      ensures Exists(Now(), key)
    {
      assert ObjectOk(Now(), hash, o);
      hide ObjectOk, Flatten, StripesOk, ShardsOk;
    }

    lemma ListedPlace(o: ObjectId, i: nat)
      requires Valid() && o in objects && o in layout && i < |layout[o]|
      ensures var s := layout[o][i];
              s in stripes && s in content && !stripes[s].state.Pending?
              && StripeOk(stripes[s], content[s], s, shards, hash) && stripes[s].len == |content[s]|
              && (forall j :: 0 <= j < i ==> layout[o][j] in content)
              && stripes[s].offset == |Flatten(layout[o][..i], content)|
    {
      hide StripeOk, Flatten;
      assert ObjectOk(Now(), hash, o);
      assert PlaceOk(Now(), hash, o, layout[o], i);
      StripeOkParts(stripes[layout[o][i]], content[layout[o][i]], layout[o][i], shards, hash);
    }

    lemma ListedNumber(o: ObjectId, i: nat)
      requires Valid() && o in objects && o in layout && i < |layout[o]|
      ensures layout[o][i] in stripes && stripes[layout[o][i]].seqno == i && stripes[layout[o][i]].owner == o
    {
      Listing(o);
      hide *;
    }

    lemma ListedContent(o: ObjectId)
      requires Valid() && o in objects
      ensures o in layout && forall i :: 0 <= i < |layout[o]| ==> layout[o][i] in content && layout[o][i] in stripes
    {
      hide PlaceOk, StripeOk;
      assert ObjectOk(Now(), hash, o);
      forall i: nat | i < |layout[o]|
        ensures layout[o][i] in content && layout[o][i] in stripes
      {
        PlaceParts(Now(), hash, o, layout[o], i);
      }
    }

    /** The part of one stripe that lies in the range. */
    method ReadPart(s: StripeId, start: nat, stop: nat) returns (r: Result<Vec, StoreError>)
      requires Valid() && Injective(hash) && start < stop
      requires s in stripes && s in content && !stripes[s].state.Pending?
      requires StripeOk(stripes[s], content[s], s, shards, hash) && stripes[s].len == |content[s]|
      modifies `shards, `disks, `stripes, `cache
      ensures Valid() && SameVisible(old(Now()), Now()) && AllKept(old(Now()), Now(), hash)
      ensures Worn(old(disks), disks) && SameReads(old(Live()), Live(), hash)
      ensures r.Ok? ==> r.value == Part(old(stripes[s].offset), content[s], start, stop)
      ensures r.Err? ==> r.error.UnrecoverableStripe?
                         && |old(Live()).Good(hash, s, old(stripes[s].k + stripes[s].m))| < old(stripes[s].k)
                         && Overlaps(old(stripes[s].offset), old(stripes[s].len), start, stop)
      ensures Elsewhere(old(Live()), Live(),
                        if Overlaps(old(stripes[s].offset), old(stripes[s].len), start, stop) then {s} else {})
    {
      hide *;
      var s0, s1 := stripes[s].offset, stripes[s].offset + stripes[s].len;
      if s1 <= start || s0 >= stop {
        Unchanged();
        ElsewhereSame(Live(), {});
        ElsewhereSame(Live(), {s});
        NoPart(s0, content[s], start, stop);
        return Ok([]);
      }
      SomePart(s0, content[s], start, stop);
      r := StripeData(s);
      if r.Ok? {
        r := Ok(r.value[(if start > s0 then start else s0) - s0..(if stop < s1 then stop else s1) - s0]);
      }
    }

    /** The bytes [start, stop) of consecutive stripes. */
    method ReadRange(o: ObjectId, start: nat, stop: nat) returns (r: Result<Vec, StoreError>)
      requires Valid() && Injective(hash) && o in objects && start < stop
      modifies `shards, `disks, `stripes, `cache
      ensures Valid() && SameVisible(old(Now()), Now()) && AllKept(old(Now()), Now(), hash)
      ensures Worn(old(disks), disks) && SameReads(old(Live()), Live(), hash)
      ensures o in layout && forall i :: 0 <= i < |layout[o]| ==> layout[o][i] in content
      ensures r.Ok? ==> r.value == Slice(Flatten(layout[o], content), start, stop)
      ensures r.Err? ==> r.error.UnrecoverableStripe?
                         && exists i: nat :: LostAt(old(Now()), old(Live()), hash, o, i, start, stop)
      ensures Elsewhere(old(Live()), Live(), Overlapping(old(stripes), o, start, stop))
    {
      hide *;
      ghost var begin, view, health := Now(), Live(), disks;
      NowParts();
      var ids := ListStripes(o);
      var out: Vec := [];
      Unchanged();
      ListedContent(o);
      NoBytes(start, stop);
      ghost var there := Overlapping(stripes, o, start, stop);
      ElsewhereSame(view, there);
      var i := 0;
      while i < |ids|
        invariant 0 <= i <= |ids| && forall j :: 0 <= j < |ids| ==> ids[j] in content
        invariant Valid() && SameVisible(begin, Now()) && AllKept(begin, Now(), hash)
        invariant Worn(health, disks) && SameReads(view, Live(), hash)
        invariant out == Slice(Flatten(ids[..i], content), start, stop)
        invariant Elsewhere(view, Live(), there)
      {
        ListedPlace(o, i);
        ListedNumber(o, i);
        NowParts();
        ghost var before, seen, hale := Now(), Live(), disks;
        var s := ids[i];
        LostLater(begin, before, view, seen, hash, o, i, start, stop);
        OverlappingKept(begin, before, hash, o, s, start, stop);
        var part := ReadPart(s, start, stop);
        ElsewhereIn(seen, Live(), if s in there then {s} else {}, there);
        ElsewhereTrans(view, seen, Live(), there, there);
        SameVisibleTrans(begin, before, Now());
        AllKeptTrans(begin, before, Now(), hash);
        SameTrans(view, seen, Live(), hash);
        WornTrans(health, hale, disks);
        if part.Err? {
          LostHere(before, seen, hash, o, i, start, stop);
          return part;
        }
        FlattenNext(ids, i, content);
        SliceAppend(Flatten(ids[..i], content), content[s], start, stop);
        out := out + part.value;
        i := i + 1;
      }
      assert ids[..i] == ids;
      return Ok(out);
    }

    method FindKey(key: Key) returns (r: Option<ObjectId>)
      ensures r.Some? ==> r.value in objects && objects[r.value].key == key
      ensures r.None? <==> !Taken(Now(), key)
    {
      if o :| o in objects && objects[o].key == key {
        return Some(o);
      }
      return None;
    }

    /** The bytes [start, end) of an object, reading only the stripes they lie in. */
    method IterRange(key: Key, start: nat, end: nat) returns (r: Result<Vec, StoreError>)
      requires Valid() && Injective(hash)
      modifies `shards, `disks, `stripes, `cache
      ensures Valid() && SameVisible(old(Now()), Now()) && Worn(old(disks), disks)
      ensures SameReads(old(Live()), Live(), hash)
      ensures r.Ok? ==> forall data :: Holds(old(Now()), key, data) ==> r.value == Slice(data, start, end)
      ensures !Exists(old(Now()), key) ==> r == Err(ObjectNotFound)
      ensures r.Err? ==> (r.error.ObjectNotFound? && !Exists(old(Now()), key))
                         || (r.error.UnrecoverableStripe? && Loses(old(Now()), old(Live()), hash, key, start, end))
      ensures Elsewhere(old(Live()), Live(), OverlappingOf(old(Now()), key, start, end))
    {
      hide *;
      var found := FindObject(key);
      Unchanged();
      ElsewhereSame(Live(), OverlappingOf(Now(), key, start, end));
      if found.None? {
        return Err(ObjectNotFound);
      }
      var o := found.value;
      NowParts();
      ExistsOf(Now(), key, o);
      ListedContent(o);
      HeldBytes(key, o);
      var stop := if end < objects[o].size then end else objects[o].size;
      SliceStop(Flatten(layout[o], content), start, end);
      if start >= stop {
        return Ok([]);
      }
      ghost var begin, view := Now(), Live();
      NowParts();
      OverlappingKey(begin, key, o, start, stop, end);
      r := ReadRange(o, start, stop);
      ElsewhereIn(view, Live(), Overlapping(begin.stripes, o, start, stop), OverlappingOf(begin, key, start, end));
      if r.Err? {
        ghost var i: nat :| LostAt(begin, view, hash, o, i, start, stop);
        LosesFrom(begin, view, hash, key, o, i, start, stop, end);
      }
    }

    // -------------------------------------------------------------- writing a stripe

    /** Write each shard to its disk; a disk that fails, or a missing disk, leaves a missing shard. */
    method LandShards(s: StripeId, row: StripeRow, key: Key, encoded: Matrix, at: seq<Option<DiskId>>)
      returns (rows: map<ShardKey, ShardRow>, landed: set<nat>, crashed: bool)
      requires |encoded| == |at| && forall d :: Some(d) in at ==> d in disks
      modifies `files, `disks, `written
      ensures Worn(old(disks), disks) && FilesOutside(old(files), files, {s}) && old(written) <= written
      ensures Faulted(old(disks), disks) <= DisksAt(at, Slots(at))
      ensures !crashed ==> Landed(rows, encoded, at, landed, |at|, files, written, s, hash)
      ensures !crashed ==> Faulted(old(disks), disks) == DisksAt(at, Slots(at) - landed)
    {
      hide *;
      rows, landed, crashed := map[], {}, false;
      ghost var health, before := disks, files;
      NothingTried(at);
      NothingLanded(encoded, at, files, written, s, hash);
      WornSame(disks);
      SameFiles(files, {s});
      for i := 0 to |at|
        invariant Worn(health, disks) && FilesOutside(before, files, {s}) && old(written) <= written
        invariant disks.Keys == health.Keys
        invariant Landed(rows, encoded, at, landed, i, files, written, s, hash)
        invariant Faulted(health, disks) == DisksAt(at, Tried(at, i) - landed)
      {
        FaultsTried(at, landed, i);
        if * {
          crashed := true;
          return;
        }
        ghost var last, noted, hale := files, written, disks;
        SameFiles(last, {s});
        var ok := false;
        if at[i].Some? {
          var d := at[i].value;
          assert at[i] in at;
          var header := HeaderFor(row, s, i, encoded[i], key, hash);
          HeaderHolds(last, row, s, i, encoded[i], key, hash, d);
          ok := WriteShard(d, header, encoded[i]);
          OneFile(last, files, s, i, d, File(Some(header), encoded[i]));
          if !ok {
            RecordError(d);
            WornTrans(health, hale, disks);
          }
        }
        FilesTrans(before, last, files, {s});
        LandedBelow(rows, encoded, at, landed, i, last, noted, s, hash);
        TriedNext(at, landed, i, ok);
        LandedNext(rows, encoded, at, landed, i, last, noted, s, hash, ok, files, written);
        if ok {
          rows := rows[ShardKey(s, i) := ShardRow(at[i], Some(hash(encoded[i])), Fine)];
          landed := landed + {i};
        } else {
          rows := rows[ShardKey(s, i) := ShardRow(None, Some(hash(encoded[i])), Missing)];
        }
      }
      TriedAll(at);
      FaultsTried(at, landed, |at|);
    }

    /** Record a pending stripe under a new id. */
    method BeginStripe(row: StripeRow, ghost data: Vec) returns (s: StripeId)
      requires Valid() && row.owner in objects && row.state.Pending?
      modifies `stripes, `content, `used
      ensures Valid() && SameVisible(old(Now()), Now())
      ensures s !in old(used) && Now() == InsertStripe(old(Now()), s, row, data)
    {
      hide Consistent, SameVisible;
      FreshId(used);
      s :| s !in used;
      InsertStripeStep(Now(), hash, s, row, data);
      stripes, content, used := stripes[s := row], content[s := data], used + {s};
    }

    /** Record the shards of a written stripe, and unless it is staged commit it, in one transaction. */
    method FinishStripe(s: StripeId, rows: map<ShardKey, ShardRow>, staged: bool)
      requires Valid() && s in stripes && s in content && stripes[s].state.Pending? && NewRows(Now(), hash, s, rows)
      requires !staged ==> NextStripe(Now(), s)
      modifies `shards, `stripes, `layout
      ensures Valid() && SameVisible(old(Now()), Now())
      ensures !staged ==> old(stripes[s].owner) in old(layout)
      ensures Now() == if staged then StageStripe(old(Now()), rows) else CommitStripe(old(Now()), s, rows)
      ensures s in stripes && StripeOk(stripes[s], content[s], s, shards, hash)
    {
      hide Consistent, SameVisible, NewRows, StripeOk, Valid;
      FinishedOk(Now(), hash, s, rows);
      ValidParts();
      if staged {
        StageStripeStep(Now(), hash, s, rows);
        shards := shards + rows;
      } else {
        CommitStripeStep(Now(), hash, s, rows);
        var o := stripes[s].owner;
        shards, stripes := shards + rows, stripes[s := stripes[s].(state := Committed)];
        layout := layout[o := layout[o] + [s]];
      }
      ValidParts();
    }

    /** Delete files one by one; those that are stuck stay. */
    method DeleteFiles(paths: set<Path>, stuck: set<Path>, ghost touched: set<StripeId>) returns (crashed: bool)
      requires forall p :: p in paths ==> p.stripe in touched
      modifies `files
      ensures FilesOutside(old(files), files, touched)
      ensures !crashed ==> files == old(files) - (paths - stuck)
    {
      hide FilesOutside;
      crashed := false;
      ghost var before := files;
      SameFiles(files, touched);
      var rest := paths;
      while rest != {}
        invariant rest <= paths && FilesOutside(before, files, touched)
        invariant files == before - (paths - rest - stuck)
        decreases rest
      {
        if * {
          return true;
        }
        var p :| p in rest;
        ghost var last := files;
        DeleteShard(p, p in stuck);
        LessFile(last, files, p, touched);
        FilesTrans(before, last, files, touched);
        rest := rest - {p};
      }
    }

    /** Delete the rows of pending stripes in one transaction. */
    method DropPending(ids: set<StripeId>)
      requires Valid() && forall s :: s in ids && s in stripes ==> stripes[s].state.Pending?
      modifies `stripes, `shards
      ensures Valid() && SameVisible(old(Now()), Now()) && Now() == DeleteStripes(old(Now()), ids)
    {
      hide *;
      ghost var before := Now();
      NowParts();
      ValidParts();
      DeletePendingStep(before, hash, ids);
      stripes, shards := StripesWithout(stripes, ids), ShardsWithout(shards, ids);
      NowParts();
      DeletedParts(before, ids);
      ValidParts();
    }

    /** Remove the landed files, then the row, of a stripe that got too few shards. */
    method AbortStripe(s: StripeId, at: seq<Option<DiskId>>, landed: set<nat>, stuck: set<Path>)
      returns (crashed: bool)
      requires Valid() && s in stripes && stripes[s].state.Pending?
      requires forall i :: i in landed ==> i < |at| && at[i].Some?
      modifies `files, `stripes, `shards
      ensures Valid() && SameVisible(old(Now()), Now()) && FilesOutside(old(files), files, {s})
      ensures Now() == if crashed then old(Now()) else DeleteStripes(old(Now()), {s})
      ensures !crashed ==> files == old(files) - (LandedPaths(at, landed, s) - stuck)
    {
      hide *;
      Unchanged();
      crashed := DeleteFiles(LandedPaths(at, landed, s), stuck, {s});
      if !crashed {
        DropPending({s});
      }
    }

    /** Write the shards of a pending stripe and commit it, or drop it if too few landed. */
    method PlaceStripe(s: StripeId, row: StripeRow, encoded: Matrix, at: seq<Option<DiskId>>, staged: bool)
      returns (r: Result<StripeId, StoreError>)
      requires Valid() && s in stripes && stripes[s] == row && row.state.Pending? && row.owner in objects
      requires s in content && Fits(row, content[s]) && |at| == row.k + row.m == |encoded| && DistinctSlots(at)
      requires encoded == Encoded(row.k, row.m, Codec.Shards(content[s], row.k, row.size), row.size)
      requires forall d :: Some(d) in at ==> d in disks && Readable(disks[d].status)
      requires !staged ==> NextStripe(Now(), s)
      modifies `disks, `files, `stripes, `shards, `layout, `written
      ensures Valid() && SameVisible(old(Now()), Now()) && Worn(old(disks), disks)
      ensures FilesOutside(old(files), files, {s}) && RowsOutside(old(shards), shards, {s})
      ensures r.Err? ==> layout == old(layout)
      ensures r.Err? ==> (r.error.Crashed? && stripes == old(stripes))
                         || (r.error.WriteFailed? && stripes == old(DeleteStripes(Now(), {s}).stripes))
      ensures r.Ok? ==>
                r.value == s && stripes == old(stripes)[s := row.(state := if staged then Pending else Committed)]
      ensures r.Ok? ==> StripeOk(stripes[s], content[s], s, shards, hash)
      ensures r.Ok? && staged ==> layout == old(layout)
      ensures r.Ok? && !staged ==>
                row.owner in old(layout) && layout == old(layout[row.owner := layout[row.owner] + [s]])
      ensures r.Ok? ==> WellPlaced(Live(), hash, s, |at|, Min(|at|, row.k + minExtra)) && RowsAt(shards, s, at)
      ensures Faulted(old(disks), disks) <= DisksAt(at, Slots(at))
      ensures r.Ok? ==> |Slots(at)| >= Min(|at|, row.k + minExtra) + |Faulted(old(disks), disks)|
      ensures r.Err? && r.error.WriteFailed? ==>
                |Slots(at)| < Min(|at|, row.k + minExtra) + |Faulted(old(disks), disks)|
    {
      hide *;
      ghost var mid, table, health := Now(), shards, disks;
      NowParts();
      ValidParts();
      SameRowsOutside(shards, {s});
      var rows, landed, crashed := LandShards(s, row, objects[row.owner].key, encoded, at);
      NowParts();
      ghost var noted := Now();
      WrittenMore(mid, noted, hash, s);
      ValidParts();
      if crashed {
        return Err(Crashed);
      }
      LandedBounds(rows, encoded, at, landed, files, written, s, hash);
      LandedSlots(at, landed);
      LandedOrFaulted(at, landed, Faulted(health, disks));
      if |landed| < Min(row.k + row.m, row.k + minExtra) {
        ghost var kept := files;
        var stuck: set<Path> := *;
        crashed := AbortStripe(s, at, landed, stuck);
        FilesTrans(old(files), kept, files, {s});
        SameVisibleTrans(mid, noted, Now());
        NowParts();
        DeleteParts(mid, noted, s);
        return Err(if crashed then Crashed else WriteFailed);
      }
      LandedNewRows(noted, hash, s, rows, encoded, at, landed, files);
      LandedAt(noted.shards, rows, encoded, at, landed, files, written, s, hash);
      FinishStripe(s, rows, staged);
      NowParts();
      FinishParts(noted, s, rows, staged);
      SameVisibleTrans(mid, noted, Now());
      LiveParts();
      StillReadable(health, disks, at);
      LandedWellPlaced(Live(), rows, encoded, at, landed, written, s, hash);
      PlacedMore(Live(), hash, s, |at|, |landed|, Min(|at|, row.k + minExtra));
      return Ok(s);
    }

    /** The shards of one stripe, in the smallest aligned size under the cap. */
    method EncodeStripe(k: nat, m: nat, data: Vec) returns (size: nat, r: Result<Matrix, CodecError>)
      requires maxShard > 0
      ensures r.Ok? <==> ValidParameters(k, m) && |data| <= k * maxShard
      ensures r.Ok? ==> k > 0 && |data| <= k * size && size <= maxShard && |r.value| == k + m
                        && r.value == Encoded(k, m, Codec.Shards(data, k, size), size)
                        && size == ShardSizeFor(k, |data|, Some(maxShard))
    {
      hide ShardSizeFor, Codec.Shards, Encoded;
      size := 0;
      CapacityBound(k, |data|, maxShard);
      var made := ReedSolomon.Create(k, m, backend);
      if made.Err? {
        return size, Err(made.error);
      }
      size := ShardSizeFor(k, |data|, Some(maxShard));
      r := made.value.EncodeBytes(data, size);
    }

    /** Write encoded data as a new stripe. */
    method WriteEncoded(row: StripeRow, ghost data: Vec, encoded: Matrix, staged: bool)
      returns (r: Result<StripeId, StoreError>)
      requires Valid() && row.owner in objects && row.state.Pending? && row.k > 0
      requires ValidParameters(row.k, row.m) && |data| == row.len <= row.k * row.size && |encoded| == row.k + row.m
      requires encoded == Encoded(row.k, row.m, Codec.Shards(data, row.k, row.size), row.size)
      requires !staged ==> NextPlace(Now(), row.owner, row.seqno, row.offset)
      modifies `disks, `files, `stripes, `shards, `used, `content, `layout, `written
      ensures Valid() && SameVisible(old(Now()), Now()) && AllKept(old(Now()), Now(), hash)
      ensures Worn(old(disks), disks) && Spares(old(Live()), Live(), hash, old(used)) && old(used) <= used
      ensures r.Err? ==> (r.error.WriteFailed? || r.error.Crashed?) && layout == old(layout)
      ensures r.Err? && !r.error.Crashed? ==> stripes == old(stripes)
      ensures RowsStay(old(shards), shards) && NewStripes(old(Now()), Now(), row.owner)
      ensures r.Ok? ==>
                Wrote(old(Now()), Now(), hash, r.value, row.owner, row.seqno, row.offset, data, row.k, row.m, staged)
                && stripes[r.value].size == row.size && stripes[r.value].len == row.len
      ensures r.Ok? ==> WellPlaced(Live(), hash, r.value, row.k + row.m, Min(row.k + row.m, row.k + minExtra))
                        && LaidOut(old(disks), shards, r.value, row.k + row.m)
      ensures Faulted(old(disks), disks) <= Candidates(old(disks), {})
      ensures r.Ok? ==> !Shortfall(old(disks), disks, row.k + row.m, Min(row.k + row.m, row.k + minExtra))
      ensures r.Err? && r.error.WriteFailed? ==>
                Shortfall(old(disks), disks, row.k + row.m, Min(row.k + row.m, row.k + minExtra))
    {
      hide *;
      ghost var start, view, health := Now(), Live(), disks;
      NowParts();
      LiveParts();
      ValidParts();
      var s := BeginStripe(row, data);
      NowParts();
      ghost var mid := Now();
      BegunParts(start, s, row, data);
      var at := Place(disks, row.k + row.m, s, {});
      PlacedReadable(at, disks, row.k + row.m);
      PlacedSize(at, disks, row.k + row.m);
      r := PlaceStripe(s, row, encoded, at, staged);
      NowParts();
      LiveParts();
      SameVisibleTrans(start, mid, Now());
      BegunTables(start, s, row, data);
      ShortfallIs(health, disks, row.k + row.m, Min(row.k + row.m, row.k + minExtra));
      WroteOnly(start, Now(), hash, s, row, data);
      OutsideSpares(view, Live(), hash, {s}, start.used);
      if r.Ok? {
        WroteFrom(start, Now(), hash, s, row, data, staged);
        LaidOutFrom(health, shards, s, row.k + row.m, at);
      }
    }

    /** Encode data as one stripe and write it; staged stripes stay pending. */
    method WriteStripe(o: ObjectId, seqno: nat, offset: nat, data: Vec, k: nat, m: nat, staged: bool)
      returns (r: Result<StripeId, StoreError>)
      requires Valid() && o in objects
      requires !staged ==> NextPlace(Now(), o, seqno, offset)
      modifies `disks, `files, `stripes, `shards, `used, `content, `layout, `written
      ensures Valid() && SameVisible(old(Now()), Now()) && AllKept(old(Now()), Now(), hash)
      ensures Worn(old(disks), disks) && Spares(old(Live()), Live(), hash, old(used)) && old(used) <= used
      ensures r.Err? && r.error.BadInput? <==> !ValidParameters(k, m) || |data| > k * maxShard
      ensures r.Err? ==> (r.error.BadInput? || r.error.WriteFailed? || r.error.Crashed?) && layout == old(layout)
      ensures r.Err? && !r.error.Crashed? ==> stripes == old(stripes)
      ensures RowsStay(old(shards), shards) && NewStripes(old(Now()), Now(), o)
      ensures r.Ok? ==> Wrote(old(Now()), Now(), hash, r.value, o, seqno, offset, data, k, m, staged)
                        && Sized(stripes[r.value], |data|, maxShard)
      ensures r.Ok? ==> WellPlaced(Live(), hash, r.value, k + m, Min(k + m, k + minExtra))
                        && LaidOut(old(disks), shards, r.value, k + m)
      ensures Faulted(old(disks), disks) <= Candidates(old(disks), {})
      ensures r.Ok? ==> !Shortfall(old(disks), disks, k + m, Min(k + m, k + minExtra))
      ensures r.Err? && r.error.WriteFailed? ==> Shortfall(old(disks), disks, k + m, Min(k + m, k + minExtra))
    {
      hide *;
      WornSame(disks);
      Unchanged();
      ValidParts();
      SameSpares(Live(), Live(), hash, used);
      SameStays(shards);
      NewStripesSame(Now(), hash, o);
      var size, encoded := EncodeStripe(k, m, data);
      if encoded.Err? {
        return Err(BadInput(encoded.error));
      }
      r := WriteEncoded(StripeRow(o, seqno, k, m, size, offset, |data|, Pending, 0), data, encoded.value, staged);
      NowParts();
      if r.Ok? {
        WroteSized(old(Now()), Now(), hash, r.value, o, seqno, offset, data, k, m, staged, size, maxShard);
      }
    }

    // -------------------------------------------------------------- deleting

    /** Delete an object's rows in one transaction. */
    method DropObject(o: ObjectId)
      requires Valid() && o in objects
      modifies `objects, `stripes, `shards, `cache
      ensures Valid() && Now() == DeleteObject(old(Now()), o)
      ensures old(objects[o].committed) ==> Removed(old(Now()), Now(), old(objects[o].key))
      ensures old(!objects[o].committed) ==> SameVisible(old(Now()), Now())
    {
      hide *;
      ghost var before := Now();
      NowParts();
      ValidParts();
      OwnedParts(before, o);
      DeleteObjectStep(before, hash, o);
      var owned := OwnedStripes(stripes, o);
      CacheLess(cache, owned, content);
      objects, stripes, shards := ObjectsWithout(objects, o), StripesWithout(stripes, owned),
          ShardsWithout(shards, owned);
      cache := cache - owned;
      NowParts();
      ValidParts();
    }

    /** Rows first, then files: a crash leaves orphan files, never dangling rows. */
    method RemoveObject(o: ObjectId, stuck: set<Path>) returns (crashed: bool)
      requires Valid() && o in objects
      modifies `objects, `stripes, `shards, `cache, `files
      ensures Valid() && FilesOutside(old(files), files, OwnedBy(old(Now()), o))
      ensures Now() == old(Now()) || Now() == DeleteObject(old(Now()), o)
      ensures Now() == old(Now()) ==> files == old(files)
      ensures !crashed ==> Now() == DeleteObject(old(Now()), o)
      ensures !crashed ==> files == old(files) - (PathsOf(old(shards), disks, OwnedBy(old(Now()), o)) - stuck)
      ensures StaysDecodable(old(Now()), old(Live()), Now(), Live(), hash)
      ensures old(objects[o].committed) ==> Now() == old(Now()) || Removed(old(Now()), Now(), old(objects[o].key))
      ensures old(!objects[o].committed) ==> SameVisible(old(Now()), Now())
    {
      hide *;
      ghost var before, view := Now(), Live();
      NowParts();
      LiveParts();
      Unchanged();
      OwnedParts(before, o);
      DeletedDiffers(before, o);
      StaysDecodableSame(before, view, hash);
      var owned := OwnedStripes(stripes, o);
      SameFiles(files, owned);
      if * {
        return true;
      }
      var paths := PathsOf(shards, disks, owned);
      DropObject(o);
      crashed := DeleteFiles(paths, stuck, owned);
      NowParts();
      LiveParts();
      RemovedDecodable(before, view, Live(), hash, o);
    }

    /** Delete whatever object has this key, and the files that its rows name on registered disks, but for those
        that the operating system refuses to remove. */
    method Delete(key: Key, stuck: set<Path>) returns (r: Result<bool, StoreError>)
      requires Valid()
      modifies `objects, `stripes, `shards, `cache, `files
      ensures Valid() && Spares(old(Live()), Live(), hash, old(StripesNotOf(Now(), key)))
      ensures r.Ok? ==> Removed(old(Now()), Now(), key) && !Taken(Now(), key) && r.value == old(Taken(Now(), key))
      ensures r.Ok? ==> files == old(files) - (PathsOf(old(shards), disks, old(StripesOf(Now(), key))) - stuck)
      ensures r.Err? ==>
                r.error.Crashed? && (Removed(old(Now()), Now(), key) || (Now() == old(Now()) && Live() == old(Live())))
      ensures StaysDecodable(old(Now()), old(Live()), Now(), Live(), hash)
    {
      hide *;
      ghost var before, view := Now(), Live();
      NowParts();
      LiveParts();
      ValidParts();
      StaysDecodableSame(before, view, hash);
      var found := FindKey(key);
      if found.None? {
        RemovedNothing(before, key);
        NoStripesOf(before, disks, key);
        Unchanged();
        SameSpares(view, view, hash, StripesNotOf(before, key));
        return Ok(false);
      }
      var o := found.value;
      KeyFreed(before, hash, o);
      StripesOfKey(before, hash, o);
      var crashed := RemoveObject(o, stuck);
      NowParts();
      LiveParts();
      RemovedSpares(before, view, Live(), hash, o);
      if Now() == before {
        SameLive(view);
      } else if !before.objects[o].committed {
        RemovedPending(before, Now(), hash, o);
      }
      return if crashed then Err(Crashed) else Ok(true);
    }

    // -------------------------------------------------------------- putting

    /** Write the next stripe of an object that is being put. */
    method WriteNext(o: ObjectId, seqno: nat, pos: nat, stop: nat, data: Vec, k: nat, m: nat, ghost start: State,
                     ghost view: View)
      returns (failed: Option<StoreError>)
      requires Valid() && pos <= stop <= |data| && stop - pos <= Capacity(k, maxShard)
      requires Progress(start, view, Now(), Live(), hash, o, seqno, pos, data, k, m, Min(k + m, k + minExtra))
      modifies `disks, `files, `stripes, `shards, `used, `content, `layout, `written
      ensures Valid() && Worn(old(disks), disks)
      ensures failed.None? ==>
                ValidParameters(k, m)
                && Progress(start, view, Now(), Live(), hash, o, seqno + 1, stop, data, k, m, Min(k + m, k + minExtra))
                && Extended(old(Now()), Now(), o, stop - pos, maxShard)
      ensures failed.Some? ==> Harmless(start, view, Now(), Live(), hash, o)
      ensures failed.Some? ==> failed.value.BadInput? || failed.value.WriteFailed? || failed.value.Crashed?
      ensures failed.Some? && failed.value.BadInput? ==> !ValidParameters(k, m)
      ensures failed.Some? && failed.value.WriteFailed? ==>
                Shortfall(old(disks), disks, k + m, Min(k + m, k + minExtra))
    {
      hide *;
      ghost var now, live, need := Now(), Live(), Min(k + m, k + minExtra);
      ProgressParts(start, view, now, live, hash, o, seqno, pos, data, k, m, need);
      NowParts();
      LiveParts();
      ValidParts();
      CapacityIs(k, maxShard);
      var done := WriteStripe(o, seqno, pos, data[pos..stop], k, m, false);
      NowParts();
      LiveParts();
      if done.Err? {
        HarmlessNext(start, view, now, live, Now(), Live(), hash, o);
        return Some(done.error);
      }
      ProgressNext(start, view, now, live, Now(), Live(), hash, done.value, o, seqno, pos, stop, data, k, m, need);
      WroteParts(now, Now(), hash, done.value, o, seqno, pos, data[pos..stop], k, m, false, Live());
      WroteExtends(now, Now(), hash, done.value, o, seqno, pos, data[pos..stop], k, m, maxShard);
      return None;
    }

    /** Cut data into full stripes and a last shorter one, and write them in order. */
    method WriteAll(o: ObjectId, data: Vec, k: nat, m: nat) returns (r: Result<nat, StoreError>)
      requires Valid() && NextPlace(Now(), o, 0, 0)
      modifies `disks, `files, `stripes, `shards, `used, `content, `layout, `written
      ensures Valid() && Worn(old(disks), disks) && Harmless(old(Now()), old(Live()), Now(), Live(), hash, o)
      ensures r.Ok? ==> Progress(old(Now()), old(Live()), Now(), Live(), hash, o, r.value, |data|, data, k, m,
                                 Min(k + m, k + minExtra))
                        && TiledObject(Now(), o, k, maxShard)
      ensures r.Err? ==> r.error.BadInput? || r.error.WriteFailed? || r.error.ReaderFailed? || r.error.Crashed?
      ensures r.Err? && r.error.BadInput? ==> !ValidParameters(k, m)
      ensures r.Err? && r.error.WriteFailed? ==> Shortfall(old(disks), disks, k + m, Min(k + m, k + minExtra))
    {
      hide *;
      ghost var start, view, health := Now(), Live(), disks;
      ghost var need := Min(k + m, k + minExtra);
      WornSame(disks);
      ValidParts();
      ProgressStart(start, view, hash, o, data, k, m, need);
      NothingTiled(start, o, Capacity(k, maxShard), maxShard);
      var pos, seqno := 0, 0;
      var cap := Capacity(k, maxShard);
      while true
        invariant Valid() && Worn(health, disks) && 0 <= pos <= |data| && 0 <= seqno
        invariant Progress(start, view, Now(), Live(), hash, o, seqno, pos, data, k, m, need)
        invariant seqno > 0 ==> cap > 0
        invariant AllFull(Now(), o, seqno, cap, maxShard)
        decreases |data| - pos
      {
        ProgressParts(start, view, Now(), Live(), hash, o, seqno, pos, data, k, m, need);
        if * {
          return Err(ReaderFailed);
        }
        var stop := if pos + cap < |data| then pos + cap else |data|;
        if pos == stop && seqno > 0 {
          FullTiled(Now(), o, seqno, k, cap, maxShard);
          break;
        }
        ghost var hale, now := disks, Now();
        ValidParts();
        var failed := WriteNext(o, seqno, pos, stop, data, k, m, start, view);
        WornTrans(health, hale, disks);
        if failed.Some? {
          if failed.value.WriteFailed? {
            ShortfallEarlier(health, hale, disks, k + m, need);
          }
          return Err(failed.value);
        }
        PositiveCapacity(k, m, maxShard);
        var short := stop - pos < cap;
        NowParts();
        TiledNext(now, Now(), o, seqno, stop - pos, k, cap, maxShard);
        pos, seqno := stop, seqno + 1;
        if short {
          break;
        }
      }
      ProgressParts(start, view, Now(), Live(), hash, o, seqno, pos, data, k, m, need);
      NowParts();
      return Ok(seqno);
    }

    method NextObjectId() returns (o: ObjectId)
      ensures o !in objects
    {
      o := 0;
      var rest := objects.Keys;
      while rest != {}
        invariant rest <= objects.Keys && forall p :: p in objects && p !in rest ==> p < o
        decreases rest
      {
        var p :| p in rest;
        o := if p >= o then p + 1 else o;
        rest := rest - {p};
      }
    }

    /** Insert a pending object. */
    method BeginObject(key: Key) returns (o: ObjectId)
      requires Valid() && !Taken(Now(), key)
      modifies `objects, `layout
      ensures Valid() && SameVisible(old(Now()), Now())
      ensures o !in old(objects) && Now() == InsertObject(old(Now()), o, key)
    {
      hide *;
      NowParts();
      ValidParts();
      o := NextObjectId();
      ghost var before := Now();
      FreeKey(before, key);
      InsertObjectStep(before, hash, o, key);
      InsertParts(before, o, key);
      objects, layout := objects[o := ObjectRow(key, 0, 0, false)], layout[o := []];
      NowParts();
      ValidParts();
    }

    /** Make an object visible. */
    method FinishObject(o: ObjectId, size: nat, count: nat)
      requires Valid() && o in objects && !objects[o].committed
      requires o in layout && forall i :: 0 <= i < |layout[o]| ==> layout[o][i] in content
      requires size == |Flatten(layout[o], content)| && count == |layout[o]|
      modifies `objects
      ensures Valid() && Added(old(Now()), Now(), old(objects[o].key), Flatten(layout[o], content))
      ensures Now() == CommitObject(old(Now()), o, size, count)
    {
      hide *;
      NowParts();
      ValidParts();
      ghost var before := Now();
      CommitObjectStep(before, hash, o, size, count);
      FinishObjectParts(before, o, size, count);
      objects := objects[o := objects[o].(size := size, stripeCount := count, committed := true)];
      NowParts();
      ValidParts();
    }

    /** Store data under a free key. */
    method PutNew(key: Key, data: Vec, k: nat, m: nat) returns (r: Result<ObjectId, StoreError>)
      requires Valid() && !Taken(Now(), key)
      modifies `disks, `files, `objects, `stripes, `shards, `cache, `used, `content, `layout, `written
      ensures Valid() && Worn(old(disks), disks) && Spares(old(Live()), Live(), hash, old(used))
      ensures r.Err? ==> SameVisible(old(Now()), Now())
      ensures r.Err? && !r.error.Crashed? ==> !Taken(Now(), key)
      ensures r.Ok? ==> Added(old(Now()), Now(), key, data)
      ensures r.Ok? ==> r.value in objects && objects[r.value].committed && objects[r.value].key == key
      ensures r.Ok? ==>
                r.value in layout && AllPlaced(Now(), Live(), hash, layout[r.value], k, m, Min(k + m, k + minExtra))
                && TiledObject(Now(), r.value, k, maxShard)
      ensures StaysDecodable(old(Now()), old(Live()), Now(), Live(), hash)
      ensures r.Err? ==> r.error.BadInput? || r.error.WriteFailed? || r.error.ReaderFailed? || r.error.Crashed?
      ensures r.Err? && r.error.BadInput? ==> !ValidParameters(k, m)
      ensures r.Err? && r.error.WriteFailed? ==> Shortfall(old(disks), disks, k + m, Min(k + m, k + minExtra))
    {
      hide *;
      ghost var start, view := Now(), Live();
      NowParts();
      ValidParts();
      var o := BeginObject(key);
      ghost var begun := Now();
      StartedPlace(start, o, key);
      InsertParts(start, o, key);
      NowParts();
      LiveParts();
      SameLive(view);
      if * {
        WornSame(disks);
        Unchanged();
        SameSpares(view, Live(), hash, start.used);
        NewStripesSame(start, hash, o);
        NewStripesTo(start, start, begun, o);
        StillHidden(start, view, begun, Live(), hash, o, ObjectRow(key, 0, 0, false));
        return Err(Crashed);
      }
      var count := WriteAll(o, data, k, m);
      NowParts();
      LiveParts();
      ghost var done, live := Now(), Live();
      HarmlessParts(begun, view, done, live, hash, o);
      NewStripesFrom(start, begun, done, o);
      SameVisibleTrans(start, begun, done);
      if count.Err? {
        if count.error.Crashed? {
          StillHidden(start, view, done, live, hash, o, ObjectRow(key, 0, 0, false));
          return Err(Crashed);
        }
        var crashed := CleanUp(o, start, begun, view);
        return Err(if crashed then Crashed else count.error);
      }
      ProgressParts(begun, view, done, live, hash, o, count.value, |data|, data, k, m, Min(k + m, k + minExtra));
      NextPlaceParts(done, o, count.value, |data|);
      assert data[..|data|] == data;
      FinishObject(o, |data|, count.value);
      NowParts();
      SameLive(live);
      AddedAfter(start, done, Now(), key, data);
      AllPlacedSame(done, Now(), live, hash, layout[o], k, m, Min(k + m, k + minExtra));
      CommitKeeps(done, o, |data|, count.value);
      FinishObjectParts(done, o, |data|, count.value);
      TiledSame(done, Now(), o, k, maxShard);
      ValidParts();
      EnoughNeeded(k, m, minExtra);
      NowShown(start, view, done, Now(), live, hash, o, objects[o], k, m, Min(k + m, k + minExtra));
      return Ok(o);
    }

    /** Remove the rows and files of an object whose put failed. */
    method CleanUp(o: ObjectId, ghost start: State, ghost begun: State, ghost view: View) returns (crashed: bool)
      requires Valid() && o in objects && !objects[o].committed && objects == start.objects[o := objects[o]]
      requires Consistent(start, hash) && o !in start.objects && begun.stripes == start.stripes
               && begun.used == start.used
      requires NewStripes(begun, Now(), o) && SameVisible(start, Now()) && Spares(view, Live(), hash, start.used)
      requires start.used <= used
      modifies `objects, `stripes, `shards, `cache, `files
      ensures Valid() && SameVisible(start, Now()) && Spares(view, Live(), hash, start.used)
      ensures !crashed ==> !Taken(Now(), old(objects[o].key))
      ensures StaysDecodable(start, view, Now(), Live(), hash)
    {
      hide *;
      ghost var before, live := Now(), Live();
      NowParts();
      LiveParts();
      ValidParts();
      KeyFreed(before, hash, o);
      NewStripesFrom(start, begun, before, o);
      OwnedAreNew(start, before, hash, o);
      OwnedParts(before, o);
      var stuck: set<Path> := *;
      crashed := RemoveObject(o, stuck);
      NowParts();
      LiveParts();
      OwnedNewSpares(live, Live(), hash, OwnedBy(before, o), start.used);
      SparesTrans(view, live, Live(), hash, start.used, start.used);
      SameVisibleTrans(start, before, Now());
      NewStripesLess(start, before, Now(), o, OwnedBy(before, o));
      StillHidden(start, view, Now(), Live(), hash, o, before.objects[o]);
    }

    lemma SameLive(v: View)
      requires v.disks == disks && v.files == files && v.shards == shards
      ensures Live() == v
    {}

    /** Store data under a key. A key that is already there keeps its object; an interrupted
        earlier attempt is removed first; a failure leaves nothing visible behind. */
    method Put(key: Key, data: Vec, profile: Option<(nat, nat)>) returns (r: Result<ObjectId, StoreError>)
      requires Valid()
      modifies `disks, `files, `objects, `stripes, `shards, `cache, `used, `content, `layout, `written
      ensures Valid() && Worn(old(disks), disks)
      ensures Spares(old(Live()), Live(), hash, old(StripesNotOf(Now(), key)))
      ensures r.Err? ==> SameVisible(old(Now()), Now())
      ensures r.Err? && !r.error.Crashed? ==> !Taken(Now(), key)
      ensures r.Ok? ==> r.value in objects && objects[r.value].committed && objects[r.value].key == key
      ensures old(Exists(Now(), key)) ==> r.Ok? && Now() == old(Now()) && Live() == old(Live())
      ensures r.Ok? && !old(Exists(Now(), key)) ==> Added(old(Now()), Now(), key, data)
      ensures r.Ok? && !old(Exists(Now(), key)) ==>
                var chosen := ChosenProfile(profile, old(disks), ecK, ecM);
                chosen.Some? && r.value in layout
                && var k, m := chosen.value.0, chosen.value.1;
                AllPlaced(Now(), Live(), hash, layout[r.value], k, m, Min(k + m, k + minExtra))
                && TiledObject(Now(), r.value, k, maxShard)
      ensures r.Err? ==>
                r.error.NoDisks? || r.error.BadInput? || r.error.WriteFailed? || r.error.ReaderFailed?
                    || r.error.Crashed?
      ensures r.Err? && r.error.NoDisks? ==> ChosenProfile(profile, old(disks), ecK, ecM).None?
      ensures r.Err? && (r.error.BadInput? || r.error.WriteFailed?) ==>
                var chosen := ChosenProfile(profile, old(disks), ecK, ecM);
                chosen.Some?
                && var k, m := chosen.value.0, chosen.value.1;
                if r.error.BadInput? then !ValidParameters(k, m)
                else Shortfall(old(disks), disks, k + m, Min(k + m, k + minExtra))
      ensures StaysDecodable(old(Now()), old(Live()), Now(), Live(), hash)
    {
      hide *;
      ghost var start, view, keep := Now(), Live(), StripesNotOf(Now(), key);
      StaysDecodableSame(start, view, hash);
      NowParts();
      LiveParts();
      ValidParts();
      Unchanged();
      SameSpares(view, view, hash, keep);
      var existing := FindObject(key);
      if existing.Some? {
        ExistsOf(start, key, existing.value);
        return Ok(existing.value);
      }
      var leftover := FindKey(key);
      if leftover.Some? {
        NotExists(start, key, leftover.value);
        KeyFreed(start, hash, leftover.value);
        var stuck: set<Path> := *;
        var crashed := RemoveObject(leftover.value, stuck);
        NowParts();
        LiveParts();
        RemovedSpares(start, view, Live(), hash, leftover.value);
        if crashed {
          return Err(Crashed);
        }
      }
      ghost var clear, seen := Now(), Live();
      NowParts();
      LiveParts();
      ValidParts();
      var chosen := ChosenProfile(profile, disks, ecK, ecM);
      if chosen.None? {
        return Err(NoDisks);
      }
      r := PutNew(key, data, chosen.value.0, chosen.value.1);
      KeepIsUsed(start, hash, key);
      SparesTrans(view, seen, Live(), hash, keep, clear.used);
      StaysDecodableTrans(start, view, clear, seen, Now(), Live(), hash);
      if r.Err? {
        SameVisibleTrans(start, clear, Now());
      } else {
        AddedAfter(start, clear, Now(), key, data);
      }
    }

    // -------------------------------------------------------------- restriping

    /** Read one stripe and write its replacement. */
    method StageOne(o: ObjectId, s: StripeId, k: nat, m: nat, ghost start: State, ghost view: View, news: seq<StripeId>)
      returns (failed: Option<StoreError>, more: seq<StripeId>)
      requires Valid() && Injective(hash) && o in objects
      requires Staged(start, view, Now(), Live(), hash, o, news, k, m, Min(k + m, k + minExtra))
      requires o in start.layout && |news| < |start.layout[o]| && start.layout[o][|news|] == s
      requires s in stripes && s in content && !stripes[s].state.Pending? && stripes[s].seqno == |news|
      requires StripeOk(stripes[s], content[s], s, shards, hash) && AllSized(stripes, news, maxShard)
      modifies `disks, `files, `stripes, `shards, `used, `content, `layout, `written
      ensures Valid() && Worn(old(disks), disks)
      ensures Staged(start, view, Now(), Live(), hash, o, more, k, m, Min(k + m, k + minExtra))
      ensures AllSized(stripes, more, maxShard)
      ensures if failed.Some? then more == news else |more| == |news| + 1
      ensures failed.Some? && failed.value.BadInput? ==> !ValidParameters(k, m) || |old(content[s])| > k * maxShard
      ensures failed.Some? && failed.value.WriteFailed? ==>
                Shortfall(old(disks), disks, k + m, Min(k + m, k + minExtra))
      ensures failed.Some? && failed.value.UnrecoverableStripe? ==> !Decodable(old(Now()), old(Live()), hash, s)
      ensures failed.Some? ==> failed.value.BadInput? || failed.value.WriteFailed? || failed.value.UnrecoverableStripe?
                               || failed.value.Crashed?
    {
      hide *;
      more := news;
      ghost var a, v, health, need := Now(), Live(), disks, Min(k + m, k + minExtra);
      StagedParts(start, view, a, v, hash, o, news, k, m, need);
      NowParts();
      LiveParts();
      ValidParts();
      var data := ReadStripe(s);
      NowParts();
      LiveParts();
      ghost var b, w, hale := Now(), Live(), disks;
      SameSpares(v, w, hash, a.used);
      NewStripesRead(a, b, hash, s, o);
      MarkedDisks(v.shards, w.shards, a.used);
      UntouchedNext(start, view, a, v, b, w, hash, o);
      StagedKept(start, view, a, v, b, w, hash, o, news, k, m, need);
      SizedKept(start, view, a, v, b, hash, o, news, k, m, need, maxShard);
      if data.Err? {
        NotDecodable(a, v, hash, s);
        return Some(data.error), news;
      }
      var offset := stripes[s].offset;
      var done := WriteStripe(o, stripes[s].seqno, offset, data.value, k, m, true);
      NowParts();
      LiveParts();
      WornTrans(health, hale, disks);
      RowsStayDisks(w.shards, shards, b.used);
      SizedKept(start, view, b, w, Now(), hash, o, news, k, m, need, maxShard);
      if done.Err? {
        if done.error.WriteFailed? {
          ShortfallEarlier(health, hale, disks, k + m, need);
        }
        UntouchedNext(start, view, b, w, Now(), Live(), hash, o);
        StagedKept(start, view, b, w, Now(), Live(), hash, o, news, k, m, need);
        return Some(done.error), news;
      }
      WroteStaged(b, Now(), hash, done.value, o, |news|, offset, data.value, k, m);
      WroteParts(b, Now(), hash, done.value, o, |news|, offset, data.value, k, m, true, Live());
      SizedMore(stripes, news, done.value, |data.value|, maxShard);
      UntouchedNext(start, view, b, w, Now(), Live(), hash, o);
      StagedMore(start, view, b, w, Now(), Live(), hash, o, news, done.value, k, m, need, offset, data.value);
      return None, news + [done.value];
    }

    /** Read every stripe and write it again, staged, under the new profile. */
    method StageAll(o: ObjectId, ids: seq<StripeId>, k: nat, m: nat)
      returns (news: seq<StripeId>, failed: Option<StoreError>)
      requires Valid() && Injective(hash) && o in objects && o in layout && ids == layout[o]
      modifies `disks, `files, `stripes, `shards, `used, `content, `layout, `written
      ensures Valid() && Worn(old(disks), disks)
      ensures Staged(old(Now()), old(Live()), Now(), Live(), hash, o, news, k, m, Min(k + m, k + minExtra))
      ensures AllSized(stripes, news, maxShard)
      ensures failed.None? ==> |news| == |ids|
      ensures failed.Some? && failed.value.BadInput? ==>
                !ValidParameters(k, m)
                || exists i :: 0 <= i < |ids| && ids[i] in old(content) && |old(content)[ids[i]]| > k * maxShard
      ensures failed.Some? && failed.value.WriteFailed? ==>
                Shortfall(old(disks), disks, k + m, Min(k + m, k + minExtra))
      ensures failed.Some? && failed.value.UnrecoverableStripe? ==> SomeLost(old(Now()), old(Live()), hash, o)
      ensures failed.Some? ==> failed.value.BadInput? || failed.value.WriteFailed? || failed.value.UnrecoverableStripe?
                               || failed.value.Crashed?
    {
      hide *;
      ghost var start, view, health, need := Now(), Live(), disks, Min(k + m, k + minExtra);
      WornSame(disks);
      NowParts();
      ValidParts();
      StagedStart(start, view, hash, o, k, m, need);
      NothingSized(stripes, maxShard);
      ListedContent(o);
      news := [];
      var i := 0;
      while i < |ids|
        invariant 0 <= i <= |ids| && |news| == i && Valid() && Worn(health, disks)
        invariant Staged(start, view, Now(), Live(), hash, o, news, k, m, need) && AllSized(stripes, news, maxShard)
      {
        StagedParts(start, view, Now(), Live(), hash, o, news, k, m, need);
        UntouchedParts(start, view, Now(), Live(), hash, o);
        NowParts();
        ListedPlace(o, i);
        ListedNumber(o, i);
        ContentKept(start, Now(), hash);
        ghost var now, live, hale := Now(), Live(), disks;
        failed, news := StageOne(o, ids[i], k, m, start, view, news);
        WornTrans(health, hale, disks);
        if failed.Some? {
          if failed.value.WriteFailed? {
            ShortfallEarlier(health, hale, disks, k + m, need);
          }
          if failed.value.UnrecoverableStripe? {
            ListedOld(start, now, hash, o, i);
            SparedDecodable(start, view, now, live, hash, ids[i], start.used);
            SomeLostAt(start, view, hash, o, i);
          }
          return;
        }
        i := i + 1;
      }
      failed := None;
    }

    /** The replacements become visible and the old stripes go, in one transaction. */
    method SwapIn(o: ObjectId, ids: seq<StripeId>, news: seq<StripeId>)
      requires Valid() && o in objects && o in layout && ids == layout[o] && |news| == |ids|
      requires forall j :: 0 <= j < |news| ==> Replaces(Now(), hash, o, layout[o], news, j)
      modifies `stripes, `shards, `layout, `cache
      ensures Valid() && SameVisible(old(Now()), Now()) && Now() == SwapStripes(old(Now()), o, news)
    {
      hide *;
      ghost var before := Now();
      NowParts();
      ValidParts();
      SwapStripesStep(before, hash, o, news);
      var gone := Elements(ids);
      SwapParts(before, o, news, gone);
      stripes, shards := Promoted(StripesWithout(stripes, gone), news), ShardsWithout(shards, gone);
      layout := layout[o := news];
      CacheLess(cache, gone, content);
      cache := cache - gone;
      NowParts();
      ValidParts();
    }

    /** Undo a restripe that failed halfway: files first, then rows. */
    method Unstage(news: seq<StripeId>, stuck: set<Path>) returns (crashed: bool)
      requires Valid() && forall j :: 0 <= j < |news| ==> news[j] in stripes && stripes[news[j]].state.Pending?
      modifies `files, `stripes, `shards, `cache
      ensures Valid() && SameVisible(old(Now()), Now()) && FilesOutside(old(files), files, Elements(news))
      ensures shards == old(shards) || shards == ShardsWithout(old(shards), Elements(news))
      ensures stripes == old(stripes) || stripes == StripesWithout(old(stripes), Elements(news))
      ensures !crashed ==> forall j :: 0 <= j < |news| ==> news[j] !in stripes
      ensures !crashed ==> files == old(files) - (PathsOf(old(shards), disks, Elements(news)) - stuck)
    {
      hide *;
      Unchanged();
      NowParts();
      ValidParts();
      var added := Elements(news);
      CacheLess(cache, added, content);
      cache := cache - added;
      ValidParts();
      crashed := DeleteFiles(PathsOf(shards, disks, added), stuck, added);
      if !crashed {
        ghost var before := Now();
        PendingElements(stripes, news);
        DropPending(added);
        NowParts();
        DeletedParts(before, added);
        WithoutThem(before.stripes, news);
      }
    }

    /** Re-encode an object's stripes under another profile. What is visible never changes. Wherever it
        stops, either the old stripes are listed and none of their shards is lost, or the new ones are
        listed, and as well placed as those of a put. */
    method Restripe(o: ObjectId, k: nat, m: nat, stuck: set<Path>) returns (r: Result<bool, StoreError>)
      requires Valid() && Injective(hash)
      modifies `disks, `files, `stripes, `shards, `cache, `used, `content, `layout, `written
      ensures Valid() && SameVisible(old(Now()), Now()) && Worn(old(disks), disks)
      ensures (layout == old(layout) && Spares(old(Live()), Live(), hash, old(used)))
              || Restriped(old(layout), Now(), Live(), hash, o, k, m, Min(k + m, k + minExtra), maxShard)
      ensures r == Ok(true) ==>
                Restriped(old(layout), Now(), Live(), hash, o, k, m, Min(k + m, k + minExtra), maxShard)
      ensures r == Ok(true) ==> PathsOf(old(shards), disks, old(ListedStripes(Now(), o))) - stuck !! files.Keys
      ensures r == Ok(false) ==> Now() == old(Now()) && Live() == old(Live()) && HasProfile(Now(), o, k, m)
      ensures r.Err? && !r.error.Crashed? ==> layout == old(layout)
      ensures Spares(old(Live()), Live(), hash, old(used - ListedStripes(Now(), o)))
      ensures r.Err? && r.error.BadInput? ==> !ValidParameters(k, m) || old(Oversized(Now(), o, k, maxShard))
      ensures r.Err? && r.error.WriteFailed? ==> Shortfall(old(disks), disks, k + m, Min(k + m, k + minExtra))
      ensures r.Err? && r.error.UnrecoverableStripe? ==> SomeLost(old(Now()), old(Live()), hash, o)
      ensures r.Err? ==> r.error.BadInput? || r.error.WriteFailed? || r.error.UnrecoverableStripe? || r.error.Crashed?
      ensures StaysDecodable(old(Now()), old(Live()), Now(), Live(), hash)
    {
      hide *;
      ghost var start, view, health, need := Now(), Live(), disks, Min(k + m, k + minExtra);
      NowParts();
      LiveParts();
      ValidParts();
      Unchanged();
      SameSpares(view, view, hash, used);
      FewerSpared(view, view, hash, used, used - ListedStripes(start, o));
      StaysDecodableSame(start, view, hash);
      if o !in objects {
        HasProfileFrom(start, o, k, m);
        return Ok(false);
      }
      var ids := ListStripes(o);
      ListedContent(o);
      if AllProfiled(stripes, ids, k, m) {
        HasProfileFrom(start, o, k, m);
        return Ok(false);
      }
      ghost var gone := Elements(ids);
      ListedParts(start, o);
      var news, failed := StageAll(o, ids, k, m);
      NowParts();
      LiveParts();
      ValidParts();
      ghost var now, live := Now(), Live();
      StagedParts(start, view, now, live, hash, o, news, k, m, need);
      UntouchedParts(start, view, now, live, hash, o);
      FewerSpared(view, live, hash, start.used, start.used - gone);
      StagedDecodable(start, view, now, live, hash, o);
      if failed.Some? {
        if failed.value.Crashed? {
          return Err(Crashed);
        }
        OversizedFrom(start, o, ids, k, maxShard);
        var crashed := Unstage(news, stuck);
        NowParts();
        LiveParts();
        ValidParts();
        SameVisibleTrans(start, now, Now());
        FreshElements(news, start.used);
        OwnedNewSpares(live, Live(), hash, Elements(news), start.used);
        SparesTrans(view, live, Live(), hash, start.used, start.used);
        FewerSpared(view, Live(), hash, start.used, start.used - gone);
        NewStripesLess(start, now, Now(), o, Elements(news));
        StagedDecodable(start, view, Now(), Live(), hash, o);
        return Err(if crashed then Crashed else failed.value);
      }
      if * {
        return Err(Crashed);
      }
      SwapProfiled(start, hash, now, live, o, news, k, m, need, gone);
      SizedPromoted(stripes, news, gone, maxShard);
      ReplacesSame(now, hash, o, ids, news);
      var paths := PathsOf(shards, disks, Elements(ids));
      PathsStay(start.shards, shards, disks, start.used, gone);
      SwapIn(o, ids, news);
      NowParts();
      ValidParts();
      SwapParts(now, o, news, gone);
      SameVisibleTrans(start, now, Now());
      ghost var after := Now();
      var crashed := DeleteFiles(paths, stuck, gone);
      LiveParts();
      OwnedNewSpares(live, Live(), hash, gone, start.used - gone);
      SparesTrans(view, live, Live(), hash, start.used - gone, start.used - gone);
      NowParts();
      SwapPlaced(now, live, after, Live(), hash, o, news, k, m, need, gone);
      SwapStripeRows(start, now, after, o, news, gone);
      EnoughNeeded(k, m, minExtra);
      SwappedDecodable(start, view, after, Live(), hash, o, k, m, need, gone);
      RestripedFrom(start.layout, after, Live(), hash, o, k, m, need, maxShard, news);
      return if crashed then Err(Crashed) else Ok(true);
    }

    // -------------------------------------------------------------- crash recovery

    /** Sweep the files of the stripes that were never committed, then drop their rows. */
    method SweepPending(stuck: set<Path>) returns (n: nat, crashed: bool)
      requires Valid()
      modifies `files, `stripes, `shards
      ensures Valid() && SameVisible(old(Now()), Now()) && Shrunk(old(Now()), Now())
      ensures Spares(old(Live()), Live(), hash, old(VisibleStripes(Now())))
      ensures StaysDecodable(old(Now()), old(Live()), Now(), Live(), hash)
      ensures n == |old(PendingStripes(stripes))|
      ensures !crashed ==> Now() == DeleteStripes(old(Now()), old(PendingStripes(stripes)))
      ensures !crashed ==> files == old(files) - (SweptPaths(old(stripes), disks) - stuck)
    {
      hide *;
      ghost var start, view := Now(), Live();
      ghost var keep := VisibleStripes(start);
      NowParts();
      LiveParts();
      Unchanged();
      ShrunkPending(start);
      var pending := PendingStripes(stripes);
      PendingOnes(objects, stripes);
      n := |pending|;
      crashed := DeleteFiles(SweptPaths(stripes, disks), stuck, pending);
      NowParts();
      LiveParts();
      PendingVisible(start);
      OwnedNewSpares(view, Live(), hash, pending, keep);
      ShrunkVisible(start, view, Now(), Live(), hash);
      if crashed {
        return;
      }
      DropPending(pending);
      NowParts();
      LiveParts();
      DeletedParts(start, pending);
      ShrunkDelete(start, start, 0, pending);
      OwnedNewSpares(view, Live(), hash, pending, keep);
      ShrunkVisible(start, view, Now(), Live(), hash);
    }

    /** Drop the stripes and objects that were never committed, and their files but for those that the operating
        system refuses to remove. */
    method RecoverPending(stuck: set<Path>) returns (n: nat, crashed: bool)
      requires Valid()
      modifies `files, `objects, `stripes, `shards, `cache
      ensures Valid() && SameVisible(old(Now()), Now()) && Shrunk(old(Now()), Now())
      ensures Spares(old(Live()), Live(), hash, old(VisibleStripes(Now())))
      ensures StaysDecodable(old(Now()), old(Live()), Now(), Live(), hash)
      ensures !crashed ==> PendingStripes(stripes) == {} && PendingObjects(objects) == {}
      ensures !crashed ==> files == old(files) - (ClearedPaths(old(Now()), disks, {}) - stuck)
      ensures !crashed ==> n == |old(PendingStripes(stripes))| + |old(PendingObjects(objects))|
    {
      hide *;
      ghost var start, view := Now(), Live();
      ghost var keep := VisibleStripes(start);
      NowParts();
      LiveParts();
      ShrunkPending(start);
      n, crashed := SweepPending(stuck);
      NowParts();
      LiveParts();
      if crashed {
        return;
      }
      SweepingStart(start, disks, view.files, files, stuck);
      var waiting := PendingObjects(objects);
      n := n + |waiting|;
      while waiting != {}
        invariant Valid() && SameVisible(start, Now()) && Shrunk(start, Now()) && Spares(view, Live(), hash, keep)
        invariant Sweeping(start, Now(), disks, view.files, files, waiting, stuck)
        invariant StaysDecodable(start, view, Now(), Live(), hash)
        decreases waiting
      {
        var o :| o in waiting;
        ghost var now, live := Now(), Live();
        NowParts();
        LiveParts();
        SweepingParts(start, now, disks, view.files, files, waiting, stuck);
        PendingOnes(objects, stripes);
        ShrunkDelete(start, now, o, {});
        PendingApart(start, now, hash, o);
        OwnedDropped(now, o);
        crashed := RemoveObject(o, stuck);
        NowParts();
        LiveParts();
        SameVisibleTrans(start, now, Now());
        OwnedNewSpares(live, Live(), hash, OwnedBy(now, o), keep);
        SparesTrans(view, live, Live(), hash, keep, keep);
        ShrunkVisible(start, view, Now(), Live(), hash);
        if crashed {
          return;
        }
        SweepingNext(start, now, disks, view.files, live.files, files, waiting, o, stuck);
        waiting := waiting - {o};
      }
      NowParts();
      SweepingParts(start, Now(), disks, view.files, files, waiting, stuck);
    }

    // -------------------------------------------------------------- repair

    /** A rebuilt shard goes back to its own disk if that can be written and is not to be vacated,
        otherwise to the writable disk with most free space that has no shard of this stripe. */
    method Target(s: StripeId, own: Option<DiskId>, diskMap: map<DiskId, Disk>, used: set<DiskId>, force: set<DiskId>)
      returns (d: Option<DiskId>)
      requires Worn(diskMap, disks)
      ensures OwnUsable(own, diskMap, used, force) ==> d == own
      ensures !OwnUsable(own, diskMap, used, force) ==>
                (d.None? <==> Candidates(disks, used + force) == {})
                && (d.Some? ==> d.value in Candidates(disks, used + force)
                                && forall c :: c in Candidates(disks, used + force) ==> Before(disks, d.value, c))
      ensures d.Some? ==>
                d.value !in used && d.value !in force && d.value in diskMap && Writable(diskMap[d.value].status)
      ensures d.Some? ==> d.value in disks && Readable(disks[d.value].status)
    {
      if own.Some? && own.value in diskMap && Writable(diskMap[own.value].status) && own.value !in force
         && own.value !in used {
        TargetReadable(diskMap, disks, own.value);
        return own;
      }
      var slots := Place(disks, 1, s, used + force);
      PlacedOne(slots, disks, used + force);
      assert None in slots <==> slots[0] == None;
      return slots[0];
    }

    /** Drop the old copy of a shard and point its row at the new one. */
    method Repoint(s: StripeId, row: StripeRow, i: nat, payload: Vec, own: Option<DiskId>, diskMap: map<DiskId, Disk>,
                   t: DiskId)
      requires Valid() && s in stripes && s in content && SameRow(row, stripes[s]) && Path(t, s, i) in written
      requires Fits(row, content[s]) && i < row.k + row.m && payload == ShardOf(row, content[s], i)
      requires ShardKey(s, i) in shards
      modifies `files, `shards
      ensures Valid() && SameVisible(old(Now()), Now())
      ensures files == old(files) || (own.Some? && own.value != t && files == old(files) - {Path(own.value, s, i)})
      ensures shards == old(shards)[ShardKey(s, i) := ShardRow(Some(t), Some(hash(payload)), Fine)]
    {
      hide *;
      ghost var before := Now();
      NowParts();
      ValidParts();
      if own.Some? && own.value in diskMap && own.value != t && Readable(diskMap[own.value].status) {
        var refused: bool := *;
        DeleteShard(Path(own.value, s, i), refused);
      }
      RowOfStripe(before, hash, s, row, i, t);
      SetRowParts(before, ShardKey(s, i), ShardRow(Some(t), Some(hash(payload)), Fine));
      shards := shards[ShardKey(s, i) := ShardRow(Some(t), Some(hash(payload)), Fine)];
      NowParts();
      ValidParts();
    }

    /** Write one shard, drop its old copy, then update its row. */
    method RewriteOne(s: StripeId, row: StripeRow, i: nat, payload: Vec, own: Option<DiskId>,
                      diskMap: map<DiskId, Disk>, used: set<DiskId>, force: set<DiskId>)
      returns (d: Option<DiskId>, ghost tried: Option<DiskId>)
      requires Valid() && s in stripes && s in content && SameRow(row, stripes[s]) && Worn(diskMap, disks)
      requires Fits(row, content[s]) && i < row.k + row.m && payload == ShardOf(row, content[s], i)
      requires ShardKey(s, i) in shards && shards[ShardKey(s, i)].disk == own
      requires Live().Read(hash, s, i).Some? ==>
                 own.Some? && own.value in force && Live().Read(hash, s, i).value == payload
      modifies `disks, `files, `shards, `written
      ensures Valid() && SameVisible(old(Now()), Now()) && Worn(old(disks), disks)
      ensures Rewrote(old(Live()), Live(), hash, s, i, payload, d)
      ensures d.Some? ==> d.value !in used && d.value !in force
      ensures Went(old(disks), disks, diskMap, used, force, d, tried, errorThreshold)
      ensures OwnUsable(own, diskMap, used, force) ==> tried == own
    {
      hide *;
      ghost var start, view := Now(), Live();
      NowParts();
      LiveParts();
      ValidParts();
      Unchanged();
      NotRewritten(view, hash, s, i, payload);
      d := Target(s, own, diskMap, used, force);
      tried := d;
      ghost var hale := disks;
      WentNowhere(hale, diskMap, own, used, force, d, errorThreshold);
      if d.None? {
        return;
      }
      var t, key := d.value, if row.owner in objects then objects[row.owner].key else "";
      var header := HeaderFor(row, s, i, payload, key, hash);
      HeaderSlot(row, s, i, payload, key, hash, t);
      var ok := WriteShard(t, header, payload);
      NowParts();
      WrittenMore(start, Now(), hash, s);
      ValidParts();
      if !ok {
        RecordError(t);
        LiveParts();
        WentInVain(hale, diskMap, used, force, t, errorThreshold);
        FailedRewrite(view, Live(), hash, s, i, payload, t, File(Some(header), payload));
        return None, tried;
      }
      ghost var noted, mid := Now(), Live();
      LiveParts();
      Repoint(s, row, i, payload, own, diskMap, t);
      LiveParts();
      SameVisibleTrans(start, noted, Now());
      DoneRewrite(view, Live(), hash, s, i, payload, t, File(Some(header), payload), own);
    }

    /** Verify every shard of a stripe; list those that need writing. */
    method Survey(s: StripeId, n: nat, force: set<DiskId>)
      returns (good: map<nat, Vec>, todo: seq<nat>, corrupt: nat, missing: nat)
      requires AllRows(shards, s, n)
      modifies `shards, `disks
      ensures Worn(old(disks), disks) && Marked(old(shards), shards) && SameReads(old(Live()), Live(), hash)
      ensures good == old(Live()).Good(hash, s, n) && IsTodo(todo, old(Live()), hash, s, n, force)
      ensures |good| + corrupt + missing == n && Counted(old(Live()), disks, hash, s, n, corrupt, missing)
      ensures Elsewhere(old(Live()), Live(), {s})
    {
      hide *;
      ghost var view, health := Live(), disks;
      LiveParts();
      Unchanged();
      CountedStart(view, hash, s);
      ElsewhereSame(view, {s});
      MarkedSame(shards);
      var rows, diskMap := shards, disks;
      good, todo, corrupt, missing := map[], [], 0, 0;
      TodoStart(view, hash, s, force);
      UpToDateFrom(rows, rows, s, 0, n, n);
      for i := 0 to n
        invariant Worn(diskMap, disks) && Marked(rows, shards) && SameReads(view, Live(), hash)
        invariant UpToDate(rows, shards, s, i, n)
        invariant Surveyed(good, todo, view, hash, s, i, force) && |good| + corrupt + missing == i
        invariant Counted(view, disks, hash, s, i, corrupt, missing) && Elsewhere(view, Live(), {s})
      {
        ghost var mid, table, hale := Live(), shards, disks;
        LiveParts();
        var key := ShardKey(s, i);
        UpToDateRow(rows, shards, s, i, n);
        var r := TryReadShard(s, i, rows[key], diskMap);
        CountedNext(view, mid, disks, hash, s, i, corrupt, missing, rows[key], errorThreshold);
        ReadOne(view, mid, Live(), hash, s, i);
        LiveParts();
        MarkElsewhere(mid, Live(), s, i);
        ElsewhereTrans(view, mid, Live(), {s}, {s});
        MarkedTrans(rows, table, shards);
        WornTrans(diskMap, hale, disks);
        UpToDateNext(rows, table, shards, s, i, n);
        SurveyedNext(good, todo, view, hash, s, i, force, r, rows[key].disk);
        if r.None? {
          if shards[key].state == Corrupt {
            corrupt := corrupt + 1;
          } else {
            missing := missing + 1;
          }
          todo := todo + [i];
        } else {
          good := good[i := r.value];
          if rows[key].disk.Some? && rows[key].disk.value in force {
            todo := todo + [i];
          }
        }
      }
      SurveyedAll(good, todo, view, hash, s, n, force);
    }

    /** Rewrite the listed shards one after the other. */
    method RewriteAll(s: StripeId, row: StripeRow, todo: seq<nat>, payloads: map<nat, Vec>,
                      rows: map<ShardKey, ShardRow>,
                      diskMap: map<DiskId, Disk>, taken: set<DiskId>, force: set<DiskId>, ghost kept: set<nat>)
      returns (repaired: nat, ghost out: Outcome, ghost used: set<DiskId>)
      requires Valid() && Injective(hash) && s in stripes && s in content && SameRow(row, stripes[s])
               && Fits(row, content[s])
      requires StripeOk(row, content[s], s, shards, hash) && Worn(diskMap, disks)
      requires IsTodo(todo, Live(), hash, s, row.k + row.m, force) && forall i :: i in todo ==> i !in kept
      requires forall i :: i in todo ==>
                 i in payloads && i < row.k + row.m && payloads[i] == ShardOf(row, content[s], i)
      requires forall i :: i in todo ==> ShardKey(s, i) in rows && ShardKey(s, i) in shards
                                         && rows[ShardKey(s, i)].disk == shards[ShardKey(s, i)].disk
      requires OnDisks(Live(), s, kept, taken) && taken == DisksOn(Live(), s, kept)
      modifies `disks, `files, `shards, `written
      ensures Valid() && SameVisible(old(Now()), Now()) && Worn(old(disks), disks)
      ensures Rebuilt(old(Live()), Live(), hash, s, row, content[s], kept, out.placed, Indexes(todo), used, force)
      ensures Accounted(Live(), diskMap, s, kept, out, Indexes(todo), force) && Tallied(old(disks), disks, out.failed)
      ensures repaired == |out.placed|
    {
      hide *;
      ghost var start, base, health := Now(), Live(), disks;
      LiveParts();
      Unchanged();
      var inUse := taken;
      repaired, out := 0, Outcome({}, {}, map[]);
      FatedStart(base, diskMap, s, kept, taken, force);
      ghost var seen: set<nat> := {};
      RebuiltStart(base, hash, s, row, content[s], kept, taken, force);
      for p := 0 to |todo|
        invariant Valid() && SameVisible(start, Now()) && Worn(health, disks) && Worn(diskMap, disks)
        invariant Rebuilt(base, Live(), hash, s, row, content[s], kept, out.placed, seen, inUse, force)
        invariant (forall i :: i in seen <==> i in todo[..p]) && repaired == |out.placed|
        invariant Fated(Live(), diskMap, health, s, kept, out, seen, inUse, force)
      {
        var i := todo[p];
        assert i in todo;
        TodoAt(todo, base, hash, s, row.k + row.m, force, p, seen);
        ghost var now, live, hale := Now(), Live(), disks;
        RebuiltParts(base, live, hash, s, row, content[s], kept, out.placed, seen, inUse, force);
        Unseen(base, live, hash, s, seen, i);
        if live.Read(hash, s, i).Some? {
          NeedsWriteParts(base, hash, s, i, force);
          VerifiedIsEncoded(row, content[s], s, i, base, hash);
        }
        LiveParts();
        TodoBelow(todo, base, hash, s, row.k + row.m, force, p, seen);
        ghost var tried;
        var d;
        d, tried := RewriteOne(s, row, i, payloads[i], rows[ShardKey(s, i)].disk, diskMap, inUse, force);
        LiveParts();
        SameVisibleTrans(start, now, Now());
        WornTrans(health, hale, disks);
        WornTrans(diskMap, hale, disks);
        FatedNext(live, Live(), hash, diskMap, health, s, kept, out, seen, inUse, force, i, payloads[i], d, tried,
                  errorThreshold);
        NotSeen(live, diskMap, health, s, kept, out, seen, inUse, force, i, d, tried);
        if d.Some? {
          RebuiltPlaced(base, live, Live(), hash, s, row, content[s], kept, out.placed, seen, inUse, force, i, d.value);
          inUse := inUse + {d.value};
          repaired := repaired + 1;
        } else {
          RebuiltSkipped(base, live, Live(), hash, s, row, content[s], kept, out.placed, seen, inUse, force, i,
                         payloads[i]);
        }
        out := OneMore(out, i, d, tried);
        seen := seen + {i};
      }
      AllSeen(seen, todo);
      LiveParts();
      FatedParts(Live(), diskMap, health, s, kept, out, seen, inUse, force);
      used := inUse;
    }

    lemma CommittedOk(s: StripeId)
      requires Valid() && s in stripes && !stripes[s].state.Pending?
      ensures s in content && StripeOk(stripes[s], content[s], s, shards, hash)
    {
      var o := stripes[s].owner;
      assert ObjectOk(Now(), hash, o);
      hide PlaceOk, StripeOk;
      ListedByOwner(Now(), hash, o, s);
    }

    /** Set a committed stripe's health and scrub time. */
    method Stamp(s: StripeId, state: StripeState, time: nat)
      requires Valid() && s in stripes && !stripes[s].state.Pending? && !state.Pending?
      modifies `stripes
      ensures Valid() && SameVisible(old(Now()), Now())
      ensures stripes == old(stripes)[s := old(stripes[s]).(state := state, scrubbed := time)]
    {
      hide *;
      ghost var before := Now();
      NowParts();
      ValidParts();
      SetStripeStateStep(before, hash, s, state, time);
      StampParts(before, s, state, time);
      stripes := stripes[s := stripes[s].(state := state, scrubbed := time)];
      NowParts();
      ValidParts();
    }

    /** The shards to write: those in hand, and those that can be reconstructed. */
    method Payloads(s: StripeId, row: StripeRow, good: map<nat, Vec>, todo: seq<nat>, ghost view: View)
      returns (r: Option<map<nat, Vec>>)
      requires Valid() && Injective(hash) && s in content && StripeOk(row, content[s], s, view.shards, hash)
      requires good == view.Good(hash, s, row.k + row.m) && forall i :: i in todo ==> i < row.k + row.m
      ensures r.None? <==> |good| < row.k && exists i :: i in todo && i !in good
      ensures r.Some? ==> Fits(row, content[s]) && forall i :: i in todo ==>
                            i < row.k + row.m && i in r.value && r.value[i] == ShardOf(row, content[s], i)
    {
      hide *;
      StripeOkParts(row, content[s], s, view.shards, hash);
      GoodFromStripe(row, content[s], s, row.k + row.m, view, hash);
      var lost := LostOf(todo, good);
      var found: map<nat, Vec> := map[];
      NothingFromStripe(good, row.k, row.m, row.size);
      if lost != [] {
        var rs := new ReedSolomon(row.k, row.m, backend);
        var rebuilt := rs.Reconstruct(good, Some(lost), row.size);
        RequestedLost(lost, row.k + row.m);
        if rebuilt.Err? {
          return None;
        }
        found := rebuilt.value;
      }
      FoundShards(found, good, todo, row, content[s]);
      return Some(found + HandOver(good, todo));
    }

    /** Reconstruct and write the listed shards of a surveyed stripe. */
    method Rewrite(s: StripeId, row: StripeRow, good: map<nat, Vec>, todo: seq<nat>, rows: map<ShardKey, ShardRow>,
                   diskMap: map<DiskId, Disk>, force: set<DiskId>, ghost view: View)
      returns (repaired: Option<nat>, ghost out: Outcome)
      requires Valid() && Injective(hash) && s in stripes && s in content && SameRow(row, stripes[s])
      requires StripeOk(row, content[s], s, shards, hash) && StripeOk(row, content[s], s, view.shards, hash)
      requires diskMap == view.disks && Worn(diskMap, disks) && rows == view.shards
      requires SameReads(view, Live(), hash) && Marked(rows, shards) && Elsewhere(view, Live(), {s})
      requires good == view.Good(hash, s, row.k + row.m) && IsTodo(todo, view, hash, s, row.k + row.m, force)
      modifies `disks, `files, `shards, `written
      ensures Valid() && SameVisible(old(Now()), Now()) && Worn(old(disks), disks)
      ensures repaired.None? <==> |good| < row.k
      ensures if repaired.Some? then repaired.value == |out.placed|
              else (out == Outcome({}, {}, map[]) && SameReads(view, Live(), hash))
      ensures Repaired(view, Live(), hash, s, row, content[s], out.placed, force) && Elsewhere(view, Live(), {s})
      ensures Tallied(old(disks), disks, out.failed)
      ensures repaired.Some? ==>
                var kept := KeptShards(view, hash, s, row.k + row.m, force);
                Accounted(Live(), view.disks, s, kept, out, Range(row.k + row.m) - kept, force)
    {
      hide *;
      out := Outcome({}, {}, map[]);
      ghost var base := Live();
      LiveParts();
      Unchanged();
      TalliedNothing(disks);
      TodoIndexes(todo, view, hash, s, row.k + row.m, force);
      StripeOkParts(row, content[s], s, view.shards, hash);
      RepairedNothing(view, base, hash, s, row, content[s], force);
      TodoCovers(todo, view, hash, s, row.k + row.m, force);
      TodoBase(todo, view, base, hash, s, row.k + row.m, force);
      FewGood(row, content[s], |good|);
      var payloads := Payloads(s, row, good, todo, view);
      if payloads.None? {
        return None, out;
      }
      var taken := DisksOf(rows, s, row.k + row.m, todo);
      ghost var kept := KeptShards(view, hash, s, row.k + row.m, force);
      KeptTaken(view, base, hash, s, row.k + row.m, force, todo, taken);
      ghost var used;
      var count: nat;
      count, out, used := RewriteAll(s, row, todo, payloads.value, rows, diskMap, taken, force, kept);
      RepairedFrom(view, base, Live(), hash, s, row, content[s], out.placed, Indexes(todo), used, force);
      RebuiltParts(base, Live(), hash, s, row, content[s], kept, out.placed, Indexes(todo), used, force);
      SameElsewhere(base, Live(), hash, s, Indexes(todo));
      ElsewhereTrans(view, base, Live(), {s}, {s});
      return Some(count), out;
    }

    /** Rewrite what the survey listed and stamp the stripe. */
    method Settle(s: StripeId, row: StripeRow, good: map<nat, Vec>, todo: seq<nat>, rows: map<ShardKey, ShardRow>,
                  diskMap: map<DiskId, Disk>, force: set<DiskId>, time: nat, ghost view: View)
      returns (repaired: Option<nat>, ghost out: Outcome)
      requires Valid() && Injective(hash) && s in stripes && s in content && row == stripes[s] && !row.state.Pending?
      requires StripeOk(row, content[s], s, shards, hash) && StripeOk(row, content[s], s, view.shards, hash)
      requires diskMap == view.disks && Worn(diskMap, disks) && rows == view.shards
      requires SameReads(view, Live(), hash) && Marked(rows, shards) && Elsewhere(view, Live(), {s})
      requires good == view.Good(hash, s, row.k + row.m) && IsTodo(todo, view, hash, s, row.k + row.m, force)
      modifies `disks, `files, `shards, `stripes, `cache, `written
      ensures Valid() && SameVisible(old(Now()), Now()) && Worn(old(disks), disks)
      ensures repaired.None? <==> |good| < row.k
      ensures if repaired.Some? then repaired.value == |out.placed|
              else (out == Outcome({}, {}, map[]) && SameReads(view, Live(), hash))
      ensures Repaired(view, Live(), hash, s, row, content[s], out.placed, force) && Elsewhere(view, Live(), {s})
      ensures Tallied(old(disks), disks, out.failed)
      ensures repaired.Some? ==>
                var kept := KeptShards(view, hash, s, row.k + row.m, force);
                Accounted(Live(), view.disks, s, kept, out, Range(row.k + row.m) - kept, force)
      ensures stripes
              == old(stripes)[s := row.(state := if repaired.None? then Unrecoverable else Committed, scrubbed := time)]
    {
      hide *;
      out := Outcome({}, {}, map[]);
      ghost var start := Now();
      TalliedNothing(disks);
      TodoIndexes(todo, view, hash, s, row.k + row.m, force);
      StripeOkParts(row, content[s], s, shards, hash);
      TodoCovers(todo, view, hash, s, row.k + row.m, force);
      FewGood(row, content[s], |good|);
      if todo == [] {
        ghost var live := Live();
        LiveParts();
        RepairedNothing(view, live, hash, s, row, content[s], force);
        AccountedStart(live, view.disks, s, KeptShards(view, hash, s, row.k + row.m, force), force);
        Unchanged();
        Stamp(s, Committed, time);
        SameLive(live);
        return Some(0), out;
      }
      SameRowSelf(row);
      repaired, out := Rewrite(s, row, good, todo, rows, diskMap, force, view);
      ghost var rewritten, live := Now(), Live();
      LiveParts();
      Stamp(s, if repaired.None? then Unrecoverable else Committed, time);
      SameLive(live);
      SameVisibleTrans(start, rewritten, Now());
      if repaired.Some? {
        DropCached(s);
        NowParts();
      }
    }

    /** Verify a stripe and rebuild its bad shards; move shards off the disks of force. */
    method RepairStripe(s: StripeId, force: set<DiskId>, time: nat) returns (res: RepairResult, ghost out: Outcome)
      requires Valid() && Injective(hash)
      modifies `disks, `files, `shards, `stripes, `cache, `written
      ensures Valid() && SameVisible(old(Now()), Now()) && Worn(old(disks), disks)
      ensures s !in old(stripes) || old(stripes[s].state.Pending?) ==>
                Now() == old(Now()) && Live() == old(Live()) && res == RepairResult(0, 0, 0, 0, false)
      ensures s in old(stripes) && !old(stripes[s].state.Pending?) ==>
                var row := old(stripes[s]);
                var n, good := row.k + row.m, old(Live()).Good(hash, s, row.k + row.m);
                s in content
                && Repaired(old(Live()), Live(), hash, s, row, content[s], out.placed, force)
                && Elsewhere(old(Live()), Live(), {s})
                && res.verified == |good| && res.corrupt == |CorruptShards(old(Live()), hash, s, n)|
                && res.missing == |MissingShards(old(Live()), hash, s, n)| && res.repaired == |out.placed|
                && res.verified + res.corrupt + res.missing == n
                && AllTallied(old(Live()), disks, hash, s, n, out.failed)
                && (if res.unrecoverable then out == Outcome({}, {}, map[])
                    else var kept := KeptShards(old(Live()), hash, s, n, force);
                         Accounted(Live(), old(disks), s, kept, out, Range(n) - kept, force))
                && (res.unrecoverable <==> |good| < row.k)
                && (res.unrecoverable ==> SameReads(old(Live()), Live(), hash))
                && stripes == old(stripes)[s := row.(state := if res.unrecoverable then Unrecoverable else Committed,
                                                     scrubbed := time)]
    {
      hide *;
      out := Outcome({}, {}, map[]);
      res := RepairResult(0, 0, 0, 0, false);
      ghost var start, view, health := Now(), Live(), disks;
      Unchanged();
      if s !in stripes || stripes[s].state.Pending? {
        return;
      }
      var row := stripes[s];
      CommittedOk(s);
      StripeOkParts(row, content[s], s, shards, hash);
      LiveParts();
      NowParts();
      ValidParts();
      var rows, diskMap := shards, disks;
      var good, todo, corrupt, missing := Survey(s, row.k + row.m, force);
      NowParts();
      ghost var read, hale := Now(), disks;
      MarkedStep(start, read, hash);
      ValidParts();
      AllKeptRow(start, read, hash, s);
      var repaired;
      repaired, out := Settle(s, row, good, todo, rows, diskMap, force, time, view);
      WornTrans(health, hale, disks);
      SameVisibleTrans(start, read, Now());
      CountsAre(view, hale, hash, s, row.k + row.m, corrupt, missing);
      TalliedAll(view, hale, disks, hash, s, row.k + row.m, corrupt, missing, out.failed);
      return RepairResult(|good|, corrupt, missing, if repaired.Some? then repaired.value else 0, repaired.None?), out;
    }

    method DropCached(s: StripeId)
      requires Valid()
      modifies `cache
      ensures Valid() && cache == old(cache) - {s}
    {
      hide *;
      ValidParts();
      CacheLess(cache, {s}, content);
      cache := cache - {s};
      ValidParts();
    }

    // -------------------------------------------------------------- disk replacement

    method SetDiskStatus(d: DiskId, status: DiskStatus)
      modifies `disks
      ensures disks == WithStatus(old(disks), d, status)
    {
      if d in disks {
        disks := disks[d := disks[d].(status := status)];
      }
    }

    /** Give up on the shards of a stripe that are still on disk d. */
    method Detach(s: StripeId, d: DiskId)
      requires Valid()
      modifies `shards
      ensures Valid() && SameVisible(old(Now()), Now()) && shards == Detached(old(shards), s, d)
    {
      hide *;
      ghost var before := Now();
      NowParts();
      ValidParts();
      DetachedStep(before, hash, s, d);
      shards := Detached(shards, s, d);
      NowParts();
      ValidParts();
    }
  }
}
