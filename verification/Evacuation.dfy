/** Emptying a disk: what one stripe and a whole run change, which shards can be moved, and which are given up. */
module Evacuation {
  import opened Wrappers
  import opened LinearAlgebra
  import opened StoreTypes
  import opened StoreState
  import opened StoreViews
  import opened StoreRepairing
  import opened Placement

  function OnDisk(shards: map<ShardKey, ShardRow>, d: DiskId): set<ShardKey> {
    set key | key in shards && shards[key].disk == Some(d)
  }

  function OfStripe(keys: set<ShardKey>, s: StripeId): set<ShardKey> {
    set key | key in keys && key.stripe == s
  }

  function StripesOf(keys: set<ShardKey>): set<StripeId> {
    set key | key in keys :: key.stripe
  }

  /** Shards elsewhere than on disk d that verified still verify, and stay off d. */
  ghost predicate ElsewhereKept(a: View, b: View, hash: Vec -> Checksum, d: DiskId) {
    forall s: StripeId, i: nat :: a.Read(hash, s, i).Some? && ShardKey(s, i) !in OnDisk(a.shards, d) ==>
      b.Read(hash, s, i) == a.Read(hash, s, i) && ShardKey(s, i) !in OnDisk(b.shards, d)
  }

  lemma KeptTrans(a: View, b: View, c: View, hash: Vec -> Checksum, d: DiskId)
    requires ElsewhereKept(a, b, hash, d) && ElsewhereKept(b, c, hash, d)
    ensures ElsewhereKept(a, c, hash, d)
    ensures AllReadsKept(a, b, hash) && AllReadsKept(b, c, hash) ==> AllReadsKept(a, c, hash)
  {
    hide View.Read, OnDisk;
  }

  lemma KeptSame(a: View, hash: Vec -> Checksum, d: DiskId)
    ensures ElsewhereKept(a, a, hash, d) && AllReadsKept(a, a, hash)
  {
    hide View.Read, OnDisk;
  }

  // ---------------------------------------------------------------- shards given up

  /** The shards that were on the source and are on no disk any more. */
  ghost function Abandoned(a: map<ShardKey, ShardRow>, b: map<ShardKey, ShardRow>, source: DiskId): set<ShardKey> {
    set key | key in OnDisk(a, source) && key in b && b[key].disk.None?
  }

  /** Every writable disk but the source holds a shard of the stripe. */
  ghost predicate Crowded(v: View, s: StripeId, source: DiskId) {
    forall d :: d in v.disks && Writable(v.disks[d].status) && d != source ==> HoldsShard(v, s, d)
  }

  ghost predicate HoldsShard(v: View, s: StripeId, d: DiskId) {
    exists i: nat :: ShardKey(s, i) in v.shards && v.shards[ShardKey(s, i)].disk == Some(d)
  }

  /** Why shards of a stripe had to stay on the source: the stripe is not committed, too few of its
      shards verified to begin with, no other disk had room, or another disk reported an error. */
  ghost predicate Stuck(a: View, b: View, hash: Vec -> Checksum, stripes: map<StripeId, StripeRow>, s: StripeId,
                        source: DiskId)
  {
    s !in stripes || stripes[s].state.Pending? || |a.Good(hash, s, stripes[s].k + stripes[s].m)| < stripes[s].k
    || Crowded(b, s, source) || Faulted(a.disks, b.disks) - {source} != {}
  }

  /** Stripe rows stay but for their health and scrub time. */
  ghost predicate SameStripes(a: map<StripeId, StripeRow>, b: map<StripeId, StripeRow>) {
    a.Keys == b.Keys && forall s :: s in a ==> SameRow(a[s], b[s])
  }

  /** Counters never fall. */
  ghost predicate Aged(a: map<DiskId, Disk>, b: map<DiskId, Disk>) {
    a.Keys == b.Keys && forall d :: d in a ==> a[d].errors <= b[d].errors
  }

  /** Between two states of an evacuation: the given-up shards were stuck, and every other shard
      that verified still does. */
  ghost predicate Evacuated(view: View, live: View, hash: Vec -> Checksum, stripes: map<StripeId, StripeRow>,
                            source: DiskId, failed: nat)
  {
    var gone := Abandoned(view.shards, live.shards, source);
    |gone| == failed && OnDisk(live.shards, source) <= OnDisk(view.shards, source) && Aged(view.disks, live.disks)
    && view.shards.Keys == live.shards.Keys
    && (forall s: StripeId, i: nat :: view.Read(hash, s, i).Some? && ShardKey(s, i) !in gone ==>
          live.Read(hash, s, i) == view.Read(hash, s, i))
    && forall key :: key in gone ==>
         Stuck(view, live, hash, stripes, key.stripe, source) && OfStripe(OnDisk(live.shards, source), key.stripe) == {}
  }

  /** What moving one stripe changes: the rows and reads of that stripe; it loses shards only if it was
      stuck, and then exactly those on the source. */
  ghost predicate StripeMoved(a: View, b: View, hash: Vec -> Checksum, stripes: map<StripeId, StripeRow>, s: StripeId,
                              source: DiskId, lost: nat)
  {
    a.shards.Keys == b.shards.Keys && Worn(a.disks, b.disks)
    && (forall key :: key in a.shards && key.stripe != s ==> b.shards[key].disk == a.shards[key].disk)
    && (forall t: StripeId, i: nat :: t != s ==> b.Read(hash, t, i) == a.Read(hash, t, i))
    && OnDisk(b.shards, source) <= OnDisk(a.shards, source)
    && if lost == 0 then
         AllReadsKept(a, b, hash)
         && forall key :: key in a.shards && a.shards[key].disk.Some? ==> b.shards[key].disk.Some?
       else
         Stuck(a, b, hash, stripes, s, source) && lost == |OfStripe(OnDisk(a.shards, source), s)|
         && (forall i: nat :: a.Read(hash, s, i).Some? && ShardKey(s, i) !in OnDisk(a.shards, source) ==>
               b.Read(hash, s, i) == a.Read(hash, s, i))
         && forall key :: key in a.shards && key.stripe == s && a.shards[key].disk.Some? ==>
              (b.shards[key].disk.None? <==> key in OnDisk(a.shards, source))
  }

  lemma EvacuatedStart(v: View, hash: Vec -> Checksum, stripes: map<StripeId, StripeRow>, source: DiskId)
    ensures Evacuated(v, v, hash, stripes, source, 0)
  {
    assert Abandoned(v.shards, v.shards, source) == {};
    hide View.Read, OnDisk, Stuck;
  }

  /** What was stuck stays stuck while other stripes are moved. */
  lemma StuckLater(view: View, a: View, b: View, hash: Vec -> Checksum, stripes: map<StripeId, StripeRow>, t: StripeId,
                   source: DiskId)
    requires Stuck(view, a, hash, stripes, t, source) && Aged(view.disks, a.disks) && Worn(a.disks, b.disks)
    requires a.shards.Keys == b.shards.Keys
    requires forall key :: key in a.shards && key.stripe == t ==> b.shards[key].disk == a.shards[key].disk
    ensures Stuck(view, b, hash, stripes, t, source) && Aged(view.disks, b.disks)
  {
    hide View.Read;
    if Crowded(a, t, source) {
      forall d | d in b.disks && Writable(b.disks[d].status) && d != source
        ensures HoldsShard(b, t, d)
      {
        assert HoldsShard(a, t, d);
        var i: nat :| ShardKey(t, i) in a.shards && a.shards[ShardKey(t, i)].disk == Some(d);
        assert ShardKey(t, i) in b.shards && b.shards[ShardKey(t, i)].disk == Some(d);
      }
    }
    if Faulted(view.disks, a.disks) - {source} != {} {
      var d :| d in Faulted(view.disks, a.disks) - {source};
      assert d in Faulted(view.disks, b.disks) - {source};
    }
  }

  /** What is stuck now was stuck from the start, if the stripe had lost nothing before. */
  lemma StuckSince(view: View, a: View, b: View, hash: Vec -> Checksum, stripes: map<StripeId, StripeRow>, s: StripeId,
                   source: DiskId)
    requires Stuck(a, b, hash, stripes, s, source) && Aged(view.disks, a.disks) && Worn(a.disks, b.disks)
    requires forall i: nat :: view.Read(hash, s, i).Some? ==> a.Read(hash, s, i) == view.Read(hash, s, i)
    ensures Stuck(view, b, hash, stripes, s, source)
  {
    hide View.Read, Crowded, Aged, Worn, Faulted;
    if s in stripes {
      FewerGood(view, a, hash, s, stripes[s].k + stripes[s].m);
    }
    FaultedLonger(view.disks, a.disks, b.disks, source);
  }

  lemma FewerGood(a: View, b: View, hash: Vec -> Checksum, s: StripeId, n: nat)
    requires forall i: nat :: a.Read(hash, s, i).Some? ==> b.Read(hash, s, i) == a.Read(hash, s, i)
    ensures |a.Good(hash, s, n)| <= |b.Good(hash, s, n)|
  {
    hide View.Read;
    SubsetSize(a.Good(hash, s, n).Keys, b.Good(hash, s, n).Keys);
  }

  lemma FaultedLonger(a: map<DiskId, Disk>, b: map<DiskId, Disk>, c: map<DiskId, Disk>, source: DiskId)
    requires Aged(a, b) && Worn(b, c)
    ensures Faulted(b, c) - {source} != {} ==> Faulted(a, c) - {source} != {}
  {
    if Faulted(b, c) - {source} != {} {
      var d :| d in Faulted(b, c) - {source};
      assert d in Faulted(a, c) - {source};
    }
  }

  lemma AbandonedNext(view: View, a: View, b: View, hash: Vec -> Checksum, stripes: map<StripeId, StripeRow>,
                      source: DiskId, s: StripeId, failed: nat, lost: nat)
    requires Evacuated(view, a, hash, stripes, source, failed) && StripeMoved(a, b, hash, stripes, s, source, lost)
    requires OfStripe(OnDisk(a.shards, source), s) != {}
    ensures Abandoned(view.shards, b.shards, source)
            == Abandoned(view.shards, a.shards, source)
               + if lost == 0 then {} else OfStripe(OnDisk(a.shards, source), s)
    ensures Abandoned(view.shards, a.shards, source) !! OfStripe(OnDisk(a.shards, source), s)
    ensures forall key :: key in Abandoned(view.shards, a.shards, source) ==> key.stripe != s
  {
    hide View.Read, Stuck, Aged, Worn, AllReadsKept;
    var gone := Abandoned(view.shards, a.shards, source);
    assert forall key :: key in gone ==> key.stripe != s;
    forall key | key in OnDisk(view.shards, source)
      ensures key in Abandoned(view.shards, b.shards, source)
              <==> key in gone || (lost != 0 && key in OfStripe(OnDisk(a.shards, source), s))
    {
      AbandonedKey(view, a, b, hash, stripes, source, s, lost, key);
    }
    assert OfStripe(OnDisk(a.shards, source), s) <= OnDisk(view.shards, source);
    hide Evacuated, StripeMoved;
  }

  lemma AbandonedKey(view: View, a: View, b: View, hash: Vec -> Checksum, stripes: map<StripeId, StripeRow>,
                     source: DiskId, s: StripeId, lost: nat, key: ShardKey)
    requires StripeMoved(a, b, hash, stripes, s, source, lost) && view.shards.Keys == a.shards.Keys
    requires key in OnDisk(view.shards, source) && (key in Abandoned(view.shards, a.shards, source) ==> key.stripe != s)
    ensures key in Abandoned(view.shards, b.shards, source)
            <==> key in Abandoned(view.shards, a.shards, source)
                 || (lost != 0 && key in OfStripe(OnDisk(a.shards, source), s))
  {
    hide View.Read, Stuck, Worn, AllReadsKept;
  }

  lemma EvacuatedNext(view: View, a: View, b: View, hash: Vec -> Checksum, stripes: map<StripeId, StripeRow>,
                      source: DiskId, s: StripeId, failed: nat, lost: nat)
    requires Evacuated(view, a, hash, stripes, source, failed) && StripeMoved(a, b, hash, stripes, s, source, lost)
    requires OfStripe(OnDisk(a.shards, source), s) != {}
    requires lost != 0 ==> OfStripe(OnDisk(b.shards, source), s) == {}
    ensures Evacuated(view, b, hash, stripes, source, failed + lost)
  {
    hide *;
    AbandonedNext(view, a, b, hash, stripes, source, s, failed, lost);
    EvacuatedReads(view, a, b, hash, stripes, source, s, failed, lost);
    SumSize(Abandoned(view.shards, a.shards, source), OfStripe(OnDisk(a.shards, source), s));
    EvacuatedSizes(view, a, b, hash, stripes, source, s, failed, lost);
    forall key | key in Abandoned(view.shards, b.shards, source)
      ensures Stuck(view, b, hash, stripes, key.stripe, source) && OfStripe(OnDisk(b.shards, source), key.stripe) == {}
    {
      StuckKey(view, a, b, hash, stripes, source, s, failed, lost, key);
    }
    EvacuatedFrom(view, b, hash, stripes, source, failed + lost);
  }

  lemma EvacuatedFrom(view: View, b: View, hash: Vec -> Checksum, stripes: map<StripeId, StripeRow>, source: DiskId,
                      failed: nat)
    requires |Abandoned(view.shards, b.shards, source)| == failed
             && OnDisk(b.shards, source) <= OnDisk(view.shards, source)
    requires Aged(view.disks, b.disks) && view.shards.Keys == b.shards.Keys
    requires forall s: StripeId, i: nat ::
               view.Read(hash, s, i).Some? && ShardKey(s, i) !in Abandoned(view.shards, b.shards, source) ==>
               b.Read(hash, s, i) == view.Read(hash, s, i)
    requires forall key :: key in Abandoned(view.shards, b.shards, source) ==>
               Stuck(view, b, hash, stripes, key.stripe, source) && OfStripe(OnDisk(b.shards, source), key.stripe) == {}
    ensures Evacuated(view, b, hash, stripes, source, failed)
  {
    hide View.Read, Stuck, OnDisk, Abandoned, OfStripe, Aged;
  }

  lemma EvacuatedSizes(view: View, a: View, b: View, hash: Vec -> Checksum, stripes: map<StripeId, StripeRow>,
                       source: DiskId, s: StripeId, failed: nat, lost: nat)
    requires Evacuated(view, a, hash, stripes, source, failed) && StripeMoved(a, b, hash, stripes, s, source, lost)
    ensures |Abandoned(view.shards, a.shards, source)| == failed && Aged(view.disks, b.disks)
    ensures lost != 0 ==> lost == |OfStripe(OnDisk(a.shards, source), s)|
    ensures OnDisk(b.shards, source) <= OnDisk(view.shards, source) && view.shards.Keys == b.shards.Keys
  {
    hide View.Read, Stuck, OnDisk, Abandoned, OfStripe, Aged, Worn, AllReadsKept;
    AgedWorn(view.disks, a.disks, b.disks);
  }

  lemma StuckKey(view: View, a: View, b: View, hash: Vec -> Checksum, stripes: map<StripeId, StripeRow>,
                 source: DiskId, s: StripeId, failed: nat, lost: nat, key: ShardKey)
    requires Evacuated(view, a, hash, stripes, source, failed) && StripeMoved(a, b, hash, stripes, s, source, lost)
    requires OfStripe(OnDisk(a.shards, source), s) != {} && key in Abandoned(view.shards, b.shards, source)
    requires lost != 0 ==> OfStripe(OnDisk(b.shards, source), s) == {}
    ensures Stuck(view, b, hash, stripes, key.stripe, source) && OfStripe(OnDisk(b.shards, source), key.stripe) == {}
  {
    AbandonedNext(view, a, b, hash, stripes, source, s, failed, lost);
    hide View.Read, Stuck, OnDisk, Abandoned, Aged, Worn, AllReadsKept;
    if key in Abandoned(view.shards, a.shards, source) {
      StuckLater(view, a, b, hash, stripes, key.stripe, source);
      StillEmpty(OnDisk(a.shards, source), OnDisk(b.shards, source), key.stripe);
    } else {
      EvacuatedReads(view, a, b, hash, stripes, source, s, failed, lost);
      StuckSince(view, a, b, hash, stripes, s, source);
    }
  }

  lemma AgedWorn(a: map<DiskId, Disk>, b: map<DiskId, Disk>, c: map<DiskId, Disk>)
    requires Aged(a, b) && Worn(b, c)
    ensures Aged(a, c)
  {}

  lemma SumSize<T>(a: set<T>, b: set<T>)
    ensures a !! b ==> |a + b| == |a| + |b|
    ensures a + {} == a
  {}

  lemma StillEmpty(a: set<ShardKey>, b: set<ShardKey>, s: StripeId)
    requires b <= a && OfStripe(a, s) == {}
    ensures OfStripe(b, s) == {}
  {
    assert OfStripe(b, s) <= OfStripe(a, s);
  }

  lemma EvacuatedReads(view: View, a: View, b: View, hash: Vec -> Checksum, stripes: map<StripeId, StripeRow>,
                       source: DiskId, s: StripeId, failed: nat, lost: nat)
    requires Evacuated(view, a, hash, stripes, source, failed) && StripeMoved(a, b, hash, stripes, s, source, lost)
    requires OfStripe(OnDisk(a.shards, source), s) != {}
    ensures forall t: StripeId, i: nat ::
              view.Read(hash, t, i).Some? && ShardKey(t, i) !in Abandoned(view.shards, b.shards, source) ==>
              b.Read(hash, t, i) == view.Read(hash, t, i)
    ensures forall i: nat :: view.Read(hash, s, i).Some? ==> a.Read(hash, s, i) == view.Read(hash, s, i)
  {
    AbandonedNext(view, a, b, hash, stripes, source, s, failed, lost);
    hide View.Read, Stuck, OnDisk, Abandoned, Aged, Worn;
  }

  /** Changing the status of the source, or of a disk that was writable already, changes nothing. */
  lemma EvacuatedStatus(view: View, a: View, b: View, hash: Vec -> Checksum, stripes: map<StripeId, StripeRow>,
                        source: DiskId, failed: nat, d: DiskId, status: DiskStatus)
    requires Evacuated(view, a, hash, stripes, source, failed)
    requires b == a.(disks := WithStatus(a.disks, d, status))
    requires d == source || (d in a.disks && Writable(a.disks[d].status)) || d !in a.disks || failed == 0
    requires AllReadsKept(a, b, hash)
    ensures Evacuated(view, b, hash, stripes, source, failed)
  {
    NonEmpty(Abandoned(view.shards, a.shards, source));
    forall key | key in Abandoned(view.shards, a.shards, source)
      ensures Stuck(view, b, hash, stripes, key.stripe, source)
    {
      StuckStatus(view, a, b, hash, stripes, key.stripe, source, d, status);
    }
    hide View.Read, Stuck, OnDisk;
  }

  lemma StuckStatus(view: View, a: View, b: View, hash: Vec -> Checksum, stripes: map<StripeId, StripeRow>, t: StripeId,
                    source: DiskId, d: DiskId, status: DiskStatus)
    requires Stuck(view, a, hash, stripes, t, source)
    requires b == a.(disks := WithStatus(a.disks, d, status))
    requires d == source || (d in a.disks && Writable(a.disks[d].status)) || d !in a.disks
    ensures Stuck(view, b, hash, stripes, t, source)
  {
    hide View.Read;
    assert Faulted(view.disks, b.disks) == Faulted(view.disks, a.disks);
    if Crowded(a, t, source) {
      forall c | c in b.disks && Writable(b.disks[c].status) && c != source
        ensures HoldsShard(b, t, c)
      {
        assert HoldsShard(a, t, c);
      }
    }
  }

  /** Exactly what was readable on the source and had to be given up is lost. */
  lemma AbandonedReads(view: View, live: View, hash: Vec -> Checksum, stripes: map<StripeId, StripeRow>,
                         source: DiskId, failed: nat)
    requires Evacuated(view, live, hash, stripes, source, failed)
    ensures AllReadsKept(view, live, hash)
            <==> forall key :: key in Abandoned(view.shards, live.shards, source) ==>
                   view.Read(hash, key.stripe, key.idx).None?
  {
    forall key | key in Abandoned(view.shards, live.shards, source)
      ensures live.Read(hash, key.stripe, key.idx).None? && key == ShardKey(key.stripe, key.idx)
    {
      NoDiskNoRead(live, hash, key);
    }
    hide View.Read, Stuck, OnDisk, Abandoned, Aged;
  }

  lemma NoDiskNoRead(v: View, hash: Vec -> Checksum, key: ShardKey)
    requires key in v.shards && v.shards[key].disk.None?
    ensures v.Read(hash, key.stripe, key.idx).None? && key == ShardKey(key.stripe, key.idx)
  {}

  // ---------------------------------------------------------------- one stripe

  /** A shard that a repair left on the source was starved or refused. */
  lemma LeftStuck(a: View, b: View, hash: Vec -> Checksum, stripes: map<StripeId, StripeRow>, s: StripeId,
                  row: StripeRow,
                  data: Vec, out: Outcome, source: DiskId, i: nat)
    requires s in stripes && stripes[s] == row && Repaired(a, b, hash, s, row, data, out.placed, {source})
    requires var kept := KeptShards(a, hash, s, row.k + row.m, {source});
             Accounted(b, a.disks, s, kept, out, Range(row.k + row.m) - kept, {source})
    requires AllTallied(a, b.disks, hash, s, row.k + row.m, out.failed)
    requires i < row.k + row.m && ShardKey(s, i) in OnDisk(b.shards, source)
    ensures Stuck(a, b, hash, stripes, s, source)
  {
    hide *;
    var n := row.k + row.m;
    var kept := KeptShards(a, hash, s, n, {source});
    NotPlaced(a, b, hash, s, row, data, out.placed, source, i);
    OnSourceListed(a, b, hash, s, out.placed, n, source, i);
    FateOf(b, a.disks, s, kept, out, Range(n) - kept, {source}, i);
    if i in out.starved {
      RoomCrowded(b, s, kept + Below(out.placed, i), source);
      StuckCrowded(a, b, hash, stripes, s, source);
    } else {
      FailedFaulted(a, b, hash, s, n, out.failed, i);
      StuckFaulted(a, b, hash, stripes, s, source, out.failed[i]);
    }
  }

  lemma FateOf(v: View, before: map<DiskId, Disk>, s: StripeId, kept: set<nat>, out: Outcome, todo: set<nat>,
               force: set<DiskId>, i: nat)
    requires Accounted(v, before, s, kept, out, todo, force) && i in todo && i !in out.placed
    ensures if i in out.starved then NoRoom(v, s, kept + Below(out.placed, i), force)
            else i in out.failed && out.failed[i] in before && out.failed[i] !in force
  {
    hide NoRoom;
  }

  lemma NotPlaced(a: View, b: View, hash: Vec -> Checksum, s: StripeId, row: StripeRow, data: Vec, placed: set<nat>,
                  source: DiskId, i: nat)
    requires Repaired(a, b, hash, s, row, data, placed, {source}) && ShardKey(s, i) in OnDisk(b.shards, source)
    ensures i !in placed && OnlyMoved(a.shards, b.shards, s, placed)
  {
    RepairedMoved(a, b, hash, s, row, data, placed, {source});
    hide Repaired, AllReadsKept, OnlyMoved, View.Read, ShardOf;
  }

  lemma StuckCrowded(a: View, b: View, hash: Vec -> Checksum, stripes: map<StripeId, StripeRow>, s: StripeId,
                     source: DiskId)
    requires Crowded(b, s, source)
    ensures Stuck(a, b, hash, stripes, s, source)
  {
    hide Crowded, View.Read;
  }

  lemma StuckFaulted(a: View, b: View, hash: Vec -> Checksum, stripes: map<StripeId, StripeRow>, s: StripeId,
                     source: DiskId, d: DiskId)
    requires d in Faulted(a.disks, b.disks) && d != source
    ensures Stuck(a, b, hash, stripes, s, source)
  {
    hide Crowded, View.Read, Faulted;
    assert d in Faulted(a.disks, b.disks) - {source};
  }

  lemma OnSourceListed(a: View, b: View, hash: Vec -> Checksum, s: StripeId, placed: set<nat>, n: nat, source: DiskId,
                       i: nat)
    requires OnlyMoved(a.shards, b.shards, s, placed) && i !in placed && i < n
             && ShardKey(s, i) in OnDisk(b.shards, source)
    ensures i in Range(n) - KeptShards(a, hash, s, n, {source})
  {
    hide View.Read;
  }

  lemma RoomCrowded(v: View, s: StripeId, on: set<nat>, source: DiskId)
    requires NoRoom(v, s, on, {source})
    ensures Crowded(v, s, source)
  {
    forall d | d in v.disks && Writable(v.disks[d].status) && d != source
      ensures HoldsShard(v, s, d)
    {
      assert d !in Candidates(v.disks, DisksOn(v, s, on) + {source});
      assert d in DisksOn(v, s, on);
    }
  }

  lemma RowInRange(st: State, hash: Vec -> Checksum, key: ShardKey)
    requires Consistent(st, hash) && key in st.shards
    ensures key.stripe in st.stripes && key.idx < st.stripes[key.stripe].k + st.stripes[key.stripe].m
  {
    hide ObjectOk, KeysUnique, StripesOk;
  }

  lemma RepairedStripe(a: View, b: View, hash: Vec -> Checksum, s: StripeId, row: StripeRow, data: Vec,
                       placed: set<nat>,
                       force: set<DiskId>)
    requires Repaired(a, b, hash, s, row, data, placed, force)
    ensures a.shards.Keys == b.shards.Keys
    ensures forall key :: key in a.shards && key.stripe != s ==> b.shards[key].disk == a.shards[key].disk
    ensures forall key :: key in a.shards && a.shards[key].disk.Some? ==> b.shards[key].disk.Some?
    ensures forall t: StripeId, i: nat :: t != s ==> b.Read(hash, t, i) == a.Read(hash, t, i)
  {
    hide View.Read, ApartOn, KeptShards, ShardOf;
    forall key | key in a.shards && a.shards[key].disk.Some?
      ensures b.shards[key].disk.Some?
    {
      if key.stripe == s && key.idx in placed {
        assert Restored(b, hash, s, row, data, key.idx, force);
        assert key == ShardKey(s, key.idx);
      }
    }
  }

  lemma MovedSame(a: View, hash: Vec -> Checksum, stripes: map<StripeId, StripeRow>, s: StripeId, source: DiskId)
    ensures StripeMoved(a, a, hash, stripes, s, source, 0)
  {
    hide View.Read, OnDisk;
  }

  /** After a repair that moved nothing, what is left on the source is detached. */
  lemma DetachedStripe(a: View, b: View, c: View, hash: Vec -> Checksum, stripes: map<StripeId, StripeRow>, s: StripeId,
                       source: DiskId, lost: nat)
    requires StripeMoved(a, b, hash, stripes, s, source, 0) && c == b.(shards := Detached(b.shards, s, source))
    requires Stuck(a, b, hash, stripes, s, source)
    requires OfStripe(OnDisk(b.shards, source), s) == OfStripe(OnDisk(a.shards, source), s)
    requires lost == |OfStripe(OnDisk(b.shards, source), s)| > 0
    ensures StripeMoved(a, c, hash, stripes, s, source, lost) && OfStripe(OnDisk(c.shards, source), s) == {}
  {
    DetachMoves(b, c, hash, s, source);
    StuckDetached(a, b, c, hash, stripes, s, source);
    DetachedReads(b, c, hash, s, source);
    DetachedRowsOf(a, b, hash, stripes, s, source);
    hide View.Read, Stuck, Worn;
  }

  lemma DetachedRowsOf(a: View, b: View, hash: Vec -> Checksum, stripes: map<StripeId, StripeRow>, s: StripeId,
                       source: DiskId)
    requires StripeMoved(a, b, hash, stripes, s, source, 0)
    requires OfStripe(OnDisk(b.shards, source), s) == OfStripe(OnDisk(a.shards, source), s)
    ensures forall key :: key in a.shards && key.stripe == s ==>
              (b.shards[key].disk == Some(source) <==> a.shards[key].disk == Some(source))
  {
    hide View.Read, Worn;
    forall key | key in a.shards && key.stripe == s
      ensures b.shards[key].disk == Some(source) <==> a.shards[key].disk == Some(source)
    {
      assert key in OfStripe(OnDisk(b.shards, source), s) <==> key in OfStripe(OnDisk(a.shards, source), s);
    }
  }

  lemma DetachedReads(b: View, c: View, hash: Vec -> Checksum, s: StripeId, source: DiskId)
    requires c == b.(shards := Detached(b.shards, s, source))
    ensures forall t: StripeId, i: nat :: t != s || ShardKey(t, i) !in OnDisk(b.shards, source) ==>
              c.Read(hash, t, i) == b.Read(hash, t, i)
  {
    forall t: StripeId, i: nat | t != s || ShardKey(t, i) !in OnDisk(b.shards, source)
      ensures c.Read(hash, t, i) == b.Read(hash, t, i)
    {
      hide ReadShard;
    }
  }

  lemma StuckDetached(a: View, b: View, c: View, hash: Vec -> Checksum, stripes: map<StripeId, StripeRow>, s: StripeId,
                      source: DiskId)
    requires Stuck(a, b, hash, stripes, s, source) && c == b.(shards := Detached(b.shards, s, source))
    ensures Stuck(a, c, hash, stripes, s, source)
  {
    hide View.Read;
    if Crowded(b, s, source) {
      forall d | d in c.disks && Writable(c.disks[d].status) && d != source
        ensures HoldsShard(c, s, d)
      {
        assert HoldsShard(b, s, d);
        var i: nat :| ShardKey(s, i) in b.shards && b.shards[ShardKey(s, i)].disk == Some(d);
        assert ShardKey(s, i) in c.shards && c.shards[ShardKey(s, i)].disk == Some(d);
      }
    }
  }

  /** A repair moves shards of one stripe off the disk and none onto it. */
  lemma RepairMoves(a: View, b: View, hash: Vec -> Checksum, s: StripeId, row: StripeRow, data: Vec, placed: set<nat>,
                    d: DiskId)
    requires Repaired(a, b, hash, s, row, data, placed, {d})
    ensures OnDisk(b.shards, d) <= OnDisk(a.shards, d)
    ensures OnDisk(a.shards, d) - OnDisk(b.shards, d) <= OfStripe(OnDisk(a.shards, d), s)
    ensures ElsewhereKept(a, b, hash, d) && AllReadsKept(a, b, hash)
  {
    RepairedMoved(a, b, hash, s, row, data, placed, {d});
    hide Repaired, View.Read;
    forall key | key in OnDisk(b.shards, d)
      ensures key in OnDisk(a.shards, d)
    {
      if key.stripe == s && key.idx in placed {
        assert key == ShardKey(s, key.idx);
        RestoredElsewhere(b, hash, s, row, data, key.idx, {d});
      }
    }
  }

  lemma RepairedMoved(a: View, b: View, hash: Vec -> Checksum, s: StripeId, row: StripeRow, data: Vec, placed: set<nat>,
                      force: set<DiskId>)
    requires Repaired(a, b, hash, s, row, data, placed, force)
    ensures OnlyMoved(a.shards, b.shards, s, placed) && AllReadsKept(a, b, hash)
    ensures forall i :: i in placed ==> Restored(b, hash, s, row, data, i, force)
  {
    hide View.Read, OnlyMoved, Restored, ApartOn, KeptShards;
  }

  lemma RestoredElsewhere(v: View, hash: Vec -> Checksum, s: StripeId, row: StripeRow, data: Vec, i: nat,
                          force: set<DiskId>)
    requires Restored(v, hash, s, row, data, i, force)
    ensures ShardKey(s, i) in v.shards && v.shards[ShardKey(s, i)].disk.Some?
            && v.shards[ShardKey(s, i)].disk.value !in force
  {
    hide View.Read, ShardOf;
  }

  lemma DetachMoves(a: View, b: View, hash: Vec -> Checksum, s: StripeId, d: DiskId)
    requires b == a.(shards := Detached(a.shards, s, d))
    ensures OnDisk(b.shards, d) == OnDisk(a.shards, d) - OfStripe(OnDisk(a.shards, d), s)
    ensures ElsewhereKept(a, b, hash, d)
  {
    forall t: StripeId, i: nat | a.Read(hash, t, i).Some? && ShardKey(t, i) !in OnDisk(a.shards, d)
      ensures b.Read(hash, t, i) == a.Read(hash, t, i) && ShardKey(t, i) !in OnDisk(b.shards, d)
    {
      DetachRead(a, b, hash, s, d, t, i);
    }
    hide View.Read;
  }

  lemma DetachRead(a: View, b: View, hash: Vec -> Checksum, s: StripeId, d: DiskId, t: StripeId, i: nat)
    requires b == a.(shards := Detached(a.shards, s, d)) && ShardKey(t, i) !in OnDisk(a.shards, d)
    ensures b.Read(hash, t, i) == a.Read(hash, t, i) && ShardKey(t, i) !in OnDisk(b.shards, d)
  {
    hide ReadShard;
  }

  lemma Counts(a: set<ShardKey>, b: set<ShardKey>, s: StripeId)
    requires b <= a && a - b <= OfStripe(a, s)
    ensures |OfStripe(b, s)| <= |OfStripe(a, s)| <= |a|
    ensures |a| - |b| == |OfStripe(a, s)| - |OfStripe(b, s)|
  {
    assert a == OfStripe(a, s) + (a - OfStripe(a, s));
    assert b == OfStripe(b, s) + (b - OfStripe(b, s));
    assert a - OfStripe(a, s) == b - OfStripe(b, s);
    SubsetSize(OfStripe(b, s), OfStripe(a, s));
  }

  lemma Without(a: set<ShardKey>, s: StripeId)
    ensures |a - OfStripe(a, s)| == |a| - |OfStripe(a, s)|
  {
    assert a == OfStripe(a, s) + (a - OfStripe(a, s));
  }

  lemma NonEmpty<T>(a: set<T>)
    ensures a != {} <==> |a| > 0
  {}

  // ---------------------------------------------------------------- disk status

  lemma StatusKeeps(a: View, b: View, hash: Vec -> Checksum, d: DiskId, status: DiskStatus, source: DiskId)
    requires b == a.(disks := WithStatus(a.disks, d, status))
    requires status.Rebuilding? || status.Online? || OnDisk(a.shards, d) == {}
    ensures AllReadsKept(a, b, hash) && ElsewhereKept(a, b, hash, source)
  {
    forall s: StripeId, i: nat | a.Read(hash, s, i).Some?
      ensures b.Read(hash, s, i) == a.Read(hash, s, i)
    {
      StatusRead(a, b, hash, d, status, s, i);
    }
    hide View.Read, OnDisk;
  }

  lemma StatusRead(a: View, b: View, hash: Vec -> Checksum, d: DiskId, status: DiskStatus, s: StripeId, i: nat)
    requires b == a.(disks := WithStatus(a.disks, d, status))
    requires status.Rebuilding? || status.Online? || OnDisk(a.shards, d) == {}
    requires a.Read(hash, s, i).Some?
    ensures b.Read(hash, s, i) == a.Read(hash, s, i)
  {
    hide ReadShard;
    assert ShardKey(s, i) in a.shards;
    assert a.shards[ShardKey(s, i)].disk == Some(d) ==> ShardKey(s, i) in OnDisk(a.shards, d);
  }

  // ---------------------------------------------------------------- the steps of a task

  lemma SameStripesSelf(a: map<StripeId, StripeRow>)
    ensures SameStripes(a, a)
  {}

  lemma SameStripesTrans(a: map<StripeId, StripeRow>, b: map<StripeId, StripeRow>, c: map<StripeId, StripeRow>)
    requires SameStripes(a, b) && SameStripes(b, c)
    ensures SameStripes(a, c)
  {}

  lemma SameStripesAt(a: map<StripeId, StripeRow>, b: map<StripeId, StripeRow>, s: StripeId, row: StripeRow)
    requires s in a && a[s] == row && !row.state.Pending? && s in b && !b[s].state.Pending?
    requires b == a[s := b[s]] && b[s] == row.(state := b[s].state, scrubbed := b[s].scrubbed)
    ensures SameStripes(a, b)
  {}

  lemma StripeRepaired(a: View, b: View, hash: Vec -> Checksum, stripes: map<StripeId, StripeRow>, s: StripeId,
                       row: StripeRow, data: Vec, placed: set<nat>, source: DiskId)
    requires Repaired(a, b, hash, s, row, data, placed, {source}) && Worn(a.disks, b.disks)
    ensures StripeMoved(a, b, hash, stripes, s, source, 0)
  {
    RepairMoves(a, b, hash, s, row, data, placed, source);
    RepairedStripe(a, b, hash, s, row, data, placed, {source});
    hide View.Read, Repaired, Worn, OnDisk, Stuck;
  }

  lemma StillOnSource(a: View, b: View, st: State, hash: Vec -> Checksum, stripes: map<StripeId, StripeRow>,
                      s: StripeId,
                      row: StripeRow, data: Vec, out: Outcome, source: DiskId, bad: bool)
    requires s in stripes && stripes[s] == row && Repaired(a, b, hash, s, row, data, out.placed, {source})
    requires bad ==> |a.Good(hash, s, row.k + row.m)| < row.k
    requires !bad ==> var kept := KeptShards(a, hash, s, row.k + row.m, {source});
                      Accounted(b, a.disks, s, kept, out, Range(row.k + row.m) - kept, {source})
    requires AllTallied(a, b.disks, hash, s, row.k + row.m, out.failed)
    requires Consistent(st, hash) && st.shards == b.shards && s in st.stripes && st.stripes[s].k == row.k
             && st.stripes[s].m == row.m
    ensures OfStripe(OnDisk(b.shards, source), s) != {} ==> Stuck(a, b, hash, stripes, s, source)
  {
    hide *;
    if OfStripe(OnDisk(b.shards, source), s) != {} {
      if bad {
        StuckBad(a, b, hash, stripes, s, source);
      } else {
        var i := SomeOnSource(b, s, source);
        RowInRange(st, hash, ShardKey(s, i));
        LeftStuck(a, b, hash, stripes, s, row, data, out, source, i);
      }
    }
  }

  lemma SomeOnSource(v: View, s: StripeId, source: DiskId) returns (i: nat)
    requires OfStripe(OnDisk(v.shards, source), s) != {}
    ensures ShardKey(s, i) in OnDisk(v.shards, source) && ShardKey(s, i) in v.shards
  {
    var key :| key in OfStripe(OnDisk(v.shards, source), s);
    i := key.idx;
    assert key == ShardKey(s, i);
  }

  lemma StuckBad(a: View, b: View, hash: Vec -> Checksum, stripes: map<StripeId, StripeRow>, s: StripeId,
                 source: DiskId)
    requires s in stripes && |a.Good(hash, s, stripes[s].k + stripes[s].m)| < stripes[s].k
    ensures Stuck(a, b, hash, stripes, s, source)
  {
    hide View.Read, Crowded;
  }

  lemma StuckUnknown(a: View, hash: Vec -> Checksum, stripes: map<StripeId, StripeRow>, s: StripeId, source: DiskId)
    requires s !in stripes || stripes[s].state.Pending?
    ensures Stuck(a, a, hash, stripes, s, source)
  {
    hide View.Read, Crowded;
  }

  lemma OfStripeLess(a: set<ShardKey>, b: set<ShardKey>, s: StripeId)
    requires b <= a
    ensures OfStripe(b, s) <= OfStripe(a, s)
  {}

  lemma SameSize<T>(a: set<T>, b: set<T>)
    requires a <= b && |a| == |b|
    ensures a == b
  {
    assert b == a + (b - a);
    NonEmpty(b - a);
  }

  /** What holds of the stripe rows now holds of those at the start. */
  lemma MovedRows(a: View, b: View, hash: Vec -> Checksum, first: map<StripeId, StripeRow>,
                  stripes: map<StripeId, StripeRow>,
                  s: StripeId, source: DiskId, lost: nat)
    requires StripeMoved(a, b, hash, stripes, s, source, lost) && SameStripes(first, stripes)
    ensures StripeMoved(a, b, hash, first, s, source, lost) && Worn(a.disks, b.disks)
  {
    assert Stuck(a, b, hash, stripes, s, source) ==> Stuck(a, b, hash, first, s, source) by {
      hide View.Read, Crowded;
    }
    hide View.Read, Stuck, OnDisk, Worn;
  }

  lemma OthersOnDisk(a: View, b: View, hash: Vec -> Checksum, stripes: map<StripeId, StripeRow>, s: StripeId,
                     source: DiskId, lost: nat, left: set<StripeId>)
    requires StripeMoved(a, b, hash, stripes, s, source, lost) && left <= StripesOf(OnDisk(a.shards, source))
    ensures left - {s} <= StripesOf(OnDisk(b.shards, source))
  {
    hide View.Read, Stuck, Worn;
    forall t | t in left - {s}
      ensures t in StripesOf(OnDisk(b.shards, source))
    {
      var key :| key in OnDisk(a.shards, source) && key.stripe == t;
      assert key in OnDisk(b.shards, source);
    }
  }

  lemma EvacuatedParts(view: View, live: View, hash: Vec -> Checksum, stripes: map<StripeId, StripeRow>, source: DiskId,
                       failed: nat)
    requires Evacuated(view, live, hash, stripes, source, failed)
    ensures failed == |Abandoned(view.shards, live.shards, source)|
    ensures forall key :: key in Abandoned(view.shards, live.shards, source) ==>
              Stuck(view, live, hash, stripes, key.stripe, source)
    ensures AllReadsKept(view, live, hash)
            <==> forall key :: key in Abandoned(view.shards, live.shards, source) ==>
                   view.Read(hash, key.stripe, key.idx).None?
  {
    AbandonedReads(view, live, hash, stripes, source, failed);
    hide View.Read, Stuck, OnDisk, Abandoned, Aged, AllReadsKept;
  }

  lemma StillRebuilding(a: map<DiskId, Disk>, b: map<DiskId, Disk>, target: Option<DiskId>)
    requires Worn(a, b)
    requires target.Some? && target.value in a ==> a[target.value].status == Rebuilding
    ensures target.Some? && target.value in b ==> b[target.value].status == Rebuilding
  {}

  lemma RebuildingWritable()
    ensures Writable(Rebuilding)
  {}

  lemma StripeOnDisk(keys: set<ShardKey>, s: StripeId)
    ensures s in StripesOf(keys) ==> OfStripe(keys, s) != {}
  {
    if s in StripesOf(keys) {
      var key :| key in keys && key.stripe == s;
      assert key in OfStripe(keys, s);
    }
  }

  lemma SameLiveBut(a: View, b: View)
    requires a.files == b.files && a.shards == b.shards
    ensures b == a.(disks := b.disks)
  {}
}
