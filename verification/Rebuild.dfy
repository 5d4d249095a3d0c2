/** Moving every shard off a disk that is being replaced. */
module Rebuild {
  import opened Wrappers
  import opened StoreTypes
  import opened StoreState
  import opened StoreViews
  import opened StoreReading
  import opened Evacuation
  import opened RebuildRoom
  import opened ObjectStore

  const BATCH := 100

  datatype TaskStatus = Queued | Done | Incomplete
  datatype Report = Report(status: TaskStatus, moved: nat, failed: nat)

  class RebuildManager {
    const store: ObjectStore

    constructor (store: ObjectStore)
      ensures this.store == store
    {
      this.store := store;
    }

    /** Repair one stripe away from the source. */
    method RepairAway(s: StripeId, source: DiskId) returns (moved: nat)
      requires store.Valid() && Injective(store.hash)
      modifies store
      ensures store.Valid() && SameVisible(old(store.Now()), store.Now())
      ensures SameStripes(old(store.stripes), store.stripes)
      ensures StripeMoved(old(store.Live()), store.Live(), store.hash, old(store.stripes), s, source, 0)
      ensures moved + |OfStripe(OnDisk(store.shards, source), s)| == old(|OfStripe(OnDisk(store.shards, source), s)|)
      ensures OfStripe(OnDisk(store.shards, source), s) <= old(OfStripe(OnDisk(store.shards, source), s))
      ensures moved + |OnDisk(store.shards, source)| == old(|OnDisk(store.shards, source)|)
      ensures OfStripe(OnDisk(store.shards, source), s) != {} ==>
                Stuck(old(store.Live()), store.Live(), store.hash, old(store.stripes), s, source)
      ensures ElsewhereKept(old(store.Live()), store.Live(), store.hash, source)
      ensures Faulted(old(store.disks), store.disks) <= {source} ==>
                Settled(old(store.Live()), store.Live(), store.hash, old(store.stripes), s, source)
    {
      hide *;
      ghost var view, begun := store.Live(), store.stripes;
      store.LiveParts();
      var before := |OfStripe(OnDisk(store.shards, source), s)|;
      var time: nat := *;
      ghost var known := s in store.stripes && !store.stripes[s].state.Pending?;
      ghost var row := if known then store.stripes[s] else StripeRow(0, 0, 0, 0, 0, 0, 0, Pending, 0);
      store.NowParts();
      var res, out := store.RepairStripe(s, {source}, time);
      store.LiveParts();
      store.NowParts();
      if known {
        RepairMoves(view, store.Live(), store.hash, s, row, store.content[s], out.placed, source);
        StripeRepaired(view, store.Live(), store.hash, begun, s, row, store.content[s], out.placed, source);
        SameStripesAt(begun, store.stripes, s, row);
        store.ValidParts();
        StillOnSource(view, store.Live(), store.Now(), store.hash, begun, s, row, store.content[s], out, source,
                      res.unrecoverable);
        RepairSettles(view, store.Live(), store.Now(), store.hash, begun, s, row, store.content[s], out, source,
                      res.unrecoverable);
      } else {
        KeptSame(view, store.hash, source);
        SameStripesSelf(begun);
        MovedSame(view, store.hash, begun, s, source);
        StuckUnknown(view, store.hash, begun, s, source);
        SettledUnknown(view, store.hash, begun, s, source);
      }
      Counts(OnDisk(view.shards, source), OnDisk(store.shards, source), s);
      OfStripeLess(OnDisk(view.shards, source), OnDisk(store.shards, source), s);
      moved := before - |OfStripe(OnDisk(store.shards, source), s)|;
    }

    /** Move what can be moved of one stripe; if that is nothing, detach its shards. */
    method MoveStripe(s: StripeId, source: DiskId) returns (moved: nat, lost: nat)
      requires store.Valid() && Injective(store.hash) && OfStripe(OnDisk(store.shards, source), s) != {}
      modifies store
      ensures store.Valid() && SameVisible(old(store.Now()), store.Now())
      ensures SameStripes(old(store.stripes), store.stripes)
      ensures moved + lost + |OnDisk(store.shards, source)| == old(|OnDisk(store.shards, source)|)
      ensures moved + lost > 0 && (lost > 0 ==> moved == 0 && OfStripe(OnDisk(store.shards, source), s) == {})
      ensures StripeMoved(old(store.Live()), store.Live(), store.hash, old(store.stripes), s, source, lost)
      ensures ElsewhereKept(old(store.Live()), store.Live(), store.hash, source)
      ensures Faulted(old(store.disks), store.disks) <= {source} ==>
                Settled(old(store.Live()), store.Live(), store.hash, old(store.stripes), s, source)
    {
      hide *;
      ghost var start, view, begun := store.Now(), store.Live(), store.stripes;
      store.LiveParts();
      NonEmpty(OfStripe(OnDisk(store.shards, source), s));
      moved := RepairAway(s, source);
      lost := 0;
      if moved == 0 {
        lost := |OfStripe(OnDisk(store.shards, source), s)|;
        NonEmpty(OfStripe(OnDisk(store.shards, source), s));
        ghost var repaired, live := store.Now(), store.Live();
        store.LiveParts();
        SameSize(OfStripe(OnDisk(live.shards, source), s), OfStripe(OnDisk(view.shards, source), s));
        Without(OnDisk(store.shards, source), s);
        store.Detach(s, source);
        store.LiveParts();
        DetachMoves(live, store.Live(), store.hash, s, source);
        DetachedStripe(view, live, store.Live(), store.hash, begun, s, source, lost);
        KeptTrans(view, live, store.Live(), store.hash, source);
        if Faulted(view.disks, live.disks) <= {source} {
          SettledDetached(view, live, store.Live(), store.hash, begun, s, source);
        }
        SameVisibleTrans(start, repaired, store.Now());
      }
    }

    /** At most a batch of the stripes with shards on the source. */
    method NextBatch(source: DiskId) returns (ids: set<StripeId>)
      ensures ids <= StripesOf(OnDisk(store.shards, source)) && |ids| <= BATCH
      ensures ids == {} <==> OnDisk(store.shards, source) == {}
    {
      ids := {};
      var all := StripesOf(OnDisk(store.shards, source));
      var rest := all;
      while rest != {} && |ids| < BATCH
        invariant rest + ids == all && rest !! ids && |ids| <= BATCH
        decreases rest
      {
        var s :| s in rest;
        ids, rest := ids + {s}, rest - {s};
      }
      if OnDisk(store.shards, source) != {} {
        var key :| key in OnDisk(store.shards, source);
        assert key.stripe in all;
      }
    }

    /** Empty the source disk, then retire it. The work may be stopped and queued again. */
    method RunTask(source: DiskId, target: Option<DiskId>) returns (report: Report)
      requires store.Valid() && Injective(store.hash)
      modifies store
      ensures store.Valid() && SameVisible(old(store.Now()), store.Now())
      ensures report.moved + report.failed + |OnDisk(store.shards, source)| == old(|OnDisk(store.shards, source)|)
      ensures report.failed == |Abandoned(old(store.shards), store.shards, source)|
      ensures forall key :: key in Abandoned(old(store.shards), store.shards, source) ==>
                Stuck(old(store.Live()), store.Live(), store.hash, old(store.stripes), key.stripe, source)
      ensures AllReadsKept(old(store.Live()), store.Live(), store.hash)
              <==> forall key :: key in Abandoned(old(store.shards), store.shards, source) ==>
                     old(store.Live()).Read(store.hash, key.stripe, key.idx).None?
      ensures !report.status.Queued? ==>
                OnDisk(store.shards, source) == {} && (report.status.Done? <==> report.failed == 0)
      ensures !report.status.Queued? && source in store.disks && target != Some(source) ==>
                store.disks[source].status == Retired
      ensures !report.status.Queued? && target.Some? && target.value in store.disks ==>
                store.disks[target.value].status == Online
      ensures ElsewhereKept(old(store.Live()), store.Live(), store.hash, source)
      ensures Faulted(old(store.disks), store.disks) <= {source} ==>
                Parted(Begun(old(store.Live()), target), store.shards, store.hash, old(store.stripes), source)
      ensures Faulted(old(store.disks), store.disks) <= {source} && !report.status.Queued? ==>
                WentAsForeseen(old(store.Live()), store.Live(), store.hash, old(store.stripes), source, target,
                               report.status.Done?)
    {
      hide *;
      ghost var start, view, rows := store.Now(), store.Live(), store.stripes;
      ghost var total := |OnDisk(store.shards, source)|;
      store.LiveParts();
      KeptSame(view, store.hash, source);
      EvacuatedStart(view, store.hash, rows, source);
      SameStripesSelf(rows);
      store.Unchanged();
      var moved: nat, failed: nat := 0, 0;
      if target.Some? {
        SetStatus(target.value, Rebuilding, source, view, rows, 0);
      }
      ghost var v := store.Live();
      store.LiveParts();
      BegunIs(view, v, target);
      OnCourseStart(v, store.hash, rows, source);
      var ids := NextBatch(source);
      while ids != {}
        invariant store.Valid() && SameVisible(start, store.Now()) && SameStripes(rows, store.stripes)
        invariant moved + failed + |OnDisk(store.shards, source)| == total
        invariant ElsewhereKept(view, store.Live(), store.hash, source)
        invariant Evacuated(view, store.Live(), store.hash, rows, source, failed)
        invariant OnCourse(v, store.Live(), store.hash, rows, source)
        invariant ids <= StripesOf(OnDisk(store.shards, source)) && (ids == {} <==> OnDisk(store.shards, source) == {})
        invariant target.Some? && target.value in store.disks ==> store.disks[target.value].status == Rebuilding
        decreases |OnDisk(store.shards, source)|
      {
        if * {
          EvacuatedParts(view, store.Live(), store.hash, rows, source, failed);
          PartedFrom(v, store.Live(), store.hash, rows, source);
          store.LiveParts();
          SameErrors(view.disks, v.disks, store.disks, store.disks);
          return Report(Queued, moved, failed);
        }
        ghost var hale := store.disks;
        var m, f := MoveBatch(ids, source, start, view, v, rows, failed);
        StillRebuilding(hale, store.disks, target);
        moved, failed := moved + m, failed + f;
        ids := NextBatch(source);
      }
      NonEmpty(OnDisk(store.shards, source));
      PartedFrom(v, store.Live(), store.hash, rows, source);
      store.LiveParts();
      ghost var emptied := store.disks;
      SetStatus(source, Retired, source, view, rows, failed);
      store.LiveParts();
      StatusErrors(emptied, source, Retired);
      ghost var retired := store.disks;
      if target.Some? {
        RebuildingWritable();
        SetStatus(target.value, Online, source, view, rows, failed);
        StatusErrors(retired, target.value, Online);
      }
      EvacuatedParts(view, store.Live(), store.hash, rows, source, failed);
      store.LiveParts();
      SameErrors(view.disks, v.disks, emptied, store.disks);
      if Faulted(view.disks, store.disks) <= {source} {
        RunEnds(view, store.Live(), store.hash, rows, source, target, failed);
      }
      return Report(if failed == 0 then Done else Incomplete, moved, failed);
    }

    method SetStatus(d: DiskId, status: DiskStatus, source: DiskId, ghost view: View,
                     ghost rows: map<StripeId, StripeRow>, ghost failed: nat)
      requires store.Valid() && (status.Rebuilding? || status.Online? || OnDisk(store.shards, d) == {})
      requires ElsewhereKept(view, store.Live(), store.hash, source)
      requires Evacuated(view, store.Live(), store.hash, rows, source, failed)
      requires d == source || (d in store.disks && Writable(store.disks[d].status)) || d !in store.disks || failed == 0
      modifies store`disks
      ensures store.Valid() && store.disks == WithStatus(old(store.disks), d, status)
      ensures ElsewhereKept(view, store.Live(), store.hash, source)
      ensures Evacuated(view, store.Live(), store.hash, rows, source, failed)
    {
      hide *;
      ghost var live := store.Live();
      store.LiveParts();
      store.SetDiskStatus(d, status);
      store.LiveParts();
      SameLiveBut(live, store.Live());
      StatusKeeps(live, store.Live(), store.hash, d, status, source);
      KeptTrans(view, live, store.Live(), store.hash, source);
      EvacuatedStatus(view, live, store.Live(), store.hash, rows, source, failed, d, status);
    }

    /** Move the stripes of one batch. */
    method MoveBatch(ids: set<StripeId>, source: DiskId, ghost start: State, ghost view: View, ghost v: View,
                     ghost rows: map<StripeId, StripeRow>, ghost failed: nat)
      returns (moved: nat, lost: nat)
      requires store.Valid() && Injective(store.hash) && SameVisible(start, store.Now())
      requires SameStripes(rows, store.stripes)
      requires ids != {} && ids <= StripesOf(OnDisk(store.shards, source))
      requires ElsewhereKept(view, store.Live(), store.hash, source)
      requires Evacuated(view, store.Live(), store.hash, rows, source, failed) && v.shards == view.shards
      requires OnCourse(v, store.Live(), store.hash, rows, source)
      modifies store
      ensures store.Valid() && SameVisible(start, store.Now()) && SameStripes(rows, store.stripes)
      ensures moved + lost > 0 && Worn(old(store.disks), store.disks)
      ensures moved + lost + |OnDisk(store.shards, source)| == old(|OnDisk(store.shards, source)|)
      ensures ElsewhereKept(view, store.Live(), store.hash, source)
      ensures Evacuated(view, store.Live(), store.hash, rows, source, failed + lost)
      ensures OnCourse(v, store.Live(), store.hash, rows, source)
    {
      hide *;
      moved, lost := 0, 0;
      var left := ids;
      ghost var first, hale := OnDisk(store.shards, source), store.disks;
      WornSame(hale);
      while left != {}
        invariant store.Valid() && SameVisible(start, store.Now()) && SameStripes(rows, store.stripes)
        invariant left <= ids && left <= StripesOf(OnDisk(store.shards, source)) && Worn(hale, store.disks)
        invariant moved + lost + |OnDisk(store.shards, source)| == |first|
        invariant ElsewhereKept(view, store.Live(), store.hash, source)
        invariant Evacuated(view, store.Live(), store.hash, rows, source, failed + lost)
        invariant OnCourse(v, store.Live(), store.hash, rows, source)
        invariant left == ids || moved + lost > 0
        decreases left
      {
        var s :| s in left;
        ghost var now, live, begun := store.Now(), store.Live(), store.stripes;
        store.LiveParts();
        StripeOnDisk(OnDisk(store.shards, source), s);
        NoneLost(view, live, store.hash, rows, source, failed + lost, s);
        var m, f := MoveStripe(s, source);
        store.LiveParts();
        SameVisibleTrans(start, now, store.Now());
        KeptTrans(view, live, store.Live(), store.hash, source);
        MovedRows(live, store.Live(), store.hash, rows, begun, s, source, f);
        SameStripesTrans(rows, begun, store.stripes);
        EvacuatedNext(view, live, store.Live(), store.hash, rows, source, s, failed + lost, f);
        if Faulted(live.disks, store.disks) <= {source} {
          SettledRows(live, store.Live(), store.hash, rows, begun, s, source);
        }
        OnCourseNext(v, live, store.Live(), store.hash, rows, source, s, f);
        WornTrans(hale, live.disks, store.disks);
        OthersOnDisk(live, store.Live(), store.hash, rows, s, source, f, left);
        moved, lost := moved + m, lost + f;
        left := left - {s};
      }
    }
  }
}
