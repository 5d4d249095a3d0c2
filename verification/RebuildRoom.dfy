/** Which shards a rebuild moves, foreseen from the state it starts in. */
module RebuildRoom {
  import opened Wrappers
  import opened LinearAlgebra
  import opened StoreTypes
  import opened StoreState
  import opened StoreViews
  import opened StoreRepairing
  import opened RepairRoom
  import opened Evacuation

  /** A shard on the source that can be moved: its stripe is committed, enough shards of it verify, and there
      is room for the shard. All of this can be looked up before the rebuild. */
  ghost predicate Movable(v: View, hash: Vec -> Checksum, stripes: map<StripeId, StripeRow>, source: DiskId,
                          key: ShardKey)
  {
    key.stripe in stripes && !stripes[key.stripe].state.Pending?
    && var n := stripes[key.stripe].k + stripes[key.stripe].m;
       |v.Good(hash, key.stripe, n)| >= stripes[key.stripe].k && FindsRoom(v, hash, key.stripe, n, {source}, key.idx)
  }

  /** The shards on the source that cannot be moved. */
  ghost function Stranded(v: View, hash: Vec -> Checksum, stripes: map<StripeId, StripeRow>, source: DiskId)
    : set<ShardKey>
  {
    set key | key in OnDisk(v.shards, source) && !Movable(v, hash, stripes, source, key)
  }

  /** Of the shards on the source at the start, those that left it for a disk are the movable ones. */
  ghost predicate Parted(v: View, shards: map<ShardKey, ShardRow>, hash: Vec -> Checksum,
                         stripes: map<StripeId, StripeRow>, source: DiskId)
  {
    forall key :: key in OnDisk(v.shards, source) ==>
      key in shards && (shards[key].disk != Some(source) ==>
                          (shards[key].disk.Some? <==> Movable(v, hash, stripes, source, key)))
  }

  /** What is on the source now was there at the start, and can be moved now if it could be then; what is
      not, could be moved if and only if it is on a disk. */
  ghost predicate Foreseen(v: View, live: View, hash: Vec -> Checksum, stripes: map<StripeId, StripeRow>,
                           source: DiskId)
  {
    forall key :: key in OnDisk(v.shards, source) ==> ForeseenAt(v, live, hash, stripes, source, key)
  }

  ghost predicate ForeseenAt(v: View, live: View, hash: Vec -> Checksum, stripes: map<StripeId, StripeRow>,
                             source: DiskId, key: ShardKey)
  {
    key in live.shards
    && if live.shards[key].disk == Some(source)
       then Movable(live, hash, stripes, source, key) <==> Movable(v, hash, stripes, source, key)
       else live.shards[key].disk.Some? <==> Movable(v, hash, stripes, source, key)
  }

  /** As long as no disk but the source reports an error, a run goes as foreseen. */
  ghost predicate OnCourse(v: View, live: View, hash: Vec -> Checksum, stripes: map<StripeId, StripeRow>,
                           source: DiskId)
  {
    Worn(v.disks, live.disks)
    && (Faulted(v.disks, live.disks) <= {source} ==> Foreseen(v, live, hash, stripes, source))
  }

  /** Moving one stripe settles its shards: each movable one is on another disk, and no other one is
      or can be moved any more. */
  ghost predicate Settled(a: View, b: View, hash: Vec -> Checksum, stripes: map<StripeId, StripeRow>, s: StripeId,
                          source: DiskId)
  {
    forall key :: key in OfStripe(OnDisk(a.shards, source), s) ==> SettledAt(a, b, hash, stripes, source, key)
  }

  ghost predicate SettledAt(a: View, b: View, hash: Vec -> Checksum, stripes: map<StripeId, StripeRow>,
                            source: DiskId, key: ShardKey)
  {
    key in b.shards
    && if b.shards[key].disk == Some(source)
       then !Movable(a, hash, stripes, source, key) && !Movable(b, hash, stripes, source, key)
       else b.shards[key].disk.Some? <==> Movable(a, hash, stripes, source, key)
  }

  // ---------------------------------------------------------------- one stripe

  /** A repair away from the source during which no other disk reports an error. */
  lemma RepairSettles(a: View, b: View, st: State, hash: Vec -> Checksum, stripes: map<StripeId, StripeRow>,
                      s: StripeId, row: StripeRow, data: Vec, out: Outcome, source: DiskId, bad: bool)
    requires s in stripes && stripes[s] == row && !row.state.Pending? && Worn(a.disks, b.disks)
    requires Repaired(a, b, hash, s, row, data, out.placed, {source})
    requires bad <==> |a.Good(hash, s, row.k + row.m)| < row.k
    requires if bad then out == Outcome({}, {}, map[]) && SameReads(a, b, hash)
             else var kept := KeptShards(a, hash, s, row.k + row.m, {source});
                  Accounted(b, a.disks, s, kept, out, Range(row.k + row.m) - kept, {source})
    requires AllTallied(a, b.disks, hash, s, row.k + row.m, out.failed)
    requires Consistent(st, hash) && st.shards == b.shards && s in st.stripes && st.stripes[s].k == row.k
             && st.stripes[s].m == row.m
    ensures Faulted(a.disks, b.disks) <= {source} ==> Settled(a, b, hash, stripes, s, source)
  {
    hide *;
    if Faulted(a.disks, b.disks) <= {source} {
      RepairedStripe(a, b, hash, s, row, data, out.placed, {source});
      if !bad {
        QuietFrom(a, b, hash, s, row, data, out, source);
      }
      forall key | key in OfStripe(OnDisk(a.shards, source), s)
        ensures SettledAt(a, b, hash, stripes, source, key)
      {
        KeyOf(a.shards, s, source, key);
        RowInRange(st, hash, key);
        if bad {
          SettledBad(a, b, hash, stripes, s, row, data, source, key);
        } else {
          SettledGood(a, b, hash, stripes, s, row, data, out, source, key);
        }
      }
      SettledFrom(a, b, hash, stripes, s, source);
    }
  }

  lemma KeyOf(shards: map<ShardKey, ShardRow>, s: StripeId, source: DiskId, key: ShardKey)
    requires key in OfStripe(OnDisk(shards, source), s)
    ensures key in shards && shards[key].disk == Some(source) && key == ShardKey(s, key.idx)
  {}

  lemma SettledFrom(a: View, b: View, hash: Vec -> Checksum, stripes: map<StripeId, StripeRow>, s: StripeId,
                    source: DiskId)
    requires forall key :: key in OfStripe(OnDisk(a.shards, source), s) ==>
               SettledAt(a, b, hash, stripes, source, key)
    ensures Settled(a, b, hash, stripes, s, source)
  {
    hide SettledAt, OnDisk, OfStripe;
  }

  lemma QuietFrom(a: View, b: View, hash: Vec -> Checksum, s: StripeId, row: StripeRow, data: Vec, out: Outcome,
                  source: DiskId)
    requires Repaired(a, b, hash, s, row, data, out.placed, {source}) && Worn(a.disks, b.disks)
    requires var kept := KeptShards(a, hash, s, row.k + row.m, {source});
             Accounted(b, a.disks, s, kept, out, Range(row.k + row.m) - kept, {source})
    requires AllTallied(a, b.disks, hash, s, row.k + row.m, out.failed) && Faulted(a.disks, b.disks) <= {source}
    ensures QuietRepair(a, b, hash, s, row, data, out, {source})
  {
    hide Repaired, Worn, Accounted, AllTallied, Faulted, KeptShards;
  }

  /** With too few verifiable shards nothing moves, then or later. */
  lemma SettledBad(a: View, b: View, hash: Vec -> Checksum, stripes: map<StripeId, StripeRow>, s: StripeId,
                   row: StripeRow, data: Vec, source: DiskId, key: ShardKey)
    requires s in stripes && stripes[s] == row && |a.Good(hash, s, row.k + row.m)| < row.k
    requires Repaired(a, b, hash, s, row, data, {}, {source}) && SameReads(a, b, hash)
    requires key in a.shards && a.shards[key].disk == Some(source) && key == ShardKey(s, key.idx)
    ensures SettledAt(a, b, hash, stripes, source, key)
  {
    hide *;
    MovedOnly(a, b, hash, s, row, data, {}, {source});
    SameGood(b, a, hash, s, row.k + row.m);
    RowUnmoved(a, b, s, {}, key.idx);
    FewNotMovable(a, hash, stripes, source, key);
    FewNotMovable(b, hash, stripes, source, key);
    SettledIs(a, b, hash, stripes, source, key);
  }

  lemma SameGood(a: View, b: View, hash: Vec -> Checksum, s: StripeId, n: nat)
    requires SameReads(b, a, hash)
    ensures |a.Good(hash, s, n)| <= |b.Good(hash, s, n)|
  {
    FewerGood(a, b, hash, s, n);
    hide View.Read;
  }

  lemma FewNotMovable(v: View, hash: Vec -> Checksum, stripes: map<StripeId, StripeRow>, source: DiskId, key: ShardKey)
    requires key.stripe in stripes
    requires |v.Good(hash, key.stripe, stripes[key.stripe].k + stripes[key.stripe].m)| < stripes[key.stripe].k
    ensures !Movable(v, hash, stripes, source, key)
  {
    hide View.Read, FindsRoom;
  }

  lemma SettledGood(a: View, b: View, hash: Vec -> Checksum, stripes: map<StripeId, StripeRow>, s: StripeId,
                    row: StripeRow, data: Vec, out: Outcome, source: DiskId, key: ShardKey)
    requires s in stripes && stripes[s] == row && !row.state.Pending? && |a.Good(hash, s, row.k + row.m)| >= row.k
    requires QuietRepair(a, b, hash, s, row, data, out, {source}) && key.idx < row.k + row.m
    requires key in a.shards && a.shards[key].disk == Some(source) && key == ShardKey(s, key.idx)
    ensures SettledAt(a, b, hash, stripes, source, key)
  {
    hide *;
    var i, n := key.idx, row.k + row.m;
    SourceNeeds(a, hash, s, n, source, i);
    PlacedIfRoom(a, b, hash, s, row, data, out, {source}, i);
    MovableIf(a, hash, stripes, source, key);
    MovableIf(b, hash, stripes, source, key);
    QuietParts(a, b, hash, s, row, data, out, {source});
    if i in out.placed {
      QuietIs(a, b, hash, s, row, data, out, {source});
      RepairedMoved(a, b, hash, s, row, data, out.placed, {source});
      RestoredElsewhere(b, hash, s, row, data, i, {source});
    } else {
      RowUnmoved(a, b, s, out.placed, i);
      NoRoomAfterwards(a, b, hash, s, row, data, out, {source}, i);
      RoomNeeded(b, hash, s, n, {source}, i);
    }
    SettledIs(a, b, hash, stripes, source, key);
  }

  lemma SettledIs(a: View, b: View, hash: Vec -> Checksum, stripes: map<StripeId, StripeRow>, source: DiskId,
                  key: ShardKey)
    requires key in b.shards
    requires b.shards[key].disk == Some(source) ==>
               !Movable(a, hash, stripes, source, key) && !Movable(b, hash, stripes, source, key)
    requires b.shards[key].disk != Some(source) ==>
               (b.shards[key].disk.Some? <==> Movable(a, hash, stripes, source, key))
    ensures SettledAt(a, b, hash, stripes, source, key)
  {
    hide Movable;
  }

  lemma MovableIf(v: View, hash: Vec -> Checksum, stripes: map<StripeId, StripeRow>, source: DiskId, key: ShardKey)
    requires key.stripe in stripes && !stripes[key.stripe].state.Pending?
    ensures var n := stripes[key.stripe].k + stripes[key.stripe].m;
            Movable(v, hash, stripes, source, key)
            <==> |v.Good(hash, key.stripe, n)| >= stripes[key.stripe].k
                 && FindsRoom(v, hash, key.stripe, n, {source}, key.idx)
  {
    hide FindsRoom, View.Read;
  }

  lemma SourceNeeds(v: View, hash: Vec -> Checksum, s: StripeId, n: nat, source: DiskId, i: nat)
    requires ShardKey(s, i) in v.shards && v.shards[ShardKey(s, i)].disk == Some(source)
    ensures i !in KeptShards(v, hash, s, n, {source})
  {
    hide View.Read;
  }

  lemma SettledUnknown(v: View, hash: Vec -> Checksum, stripes: map<StripeId, StripeRow>, s: StripeId,
                       source: DiskId)
    requires s !in stripes || stripes[s].state.Pending?
    ensures Settled(v, v, hash, stripes, s, source)
  {
    hide FindsRoom, View.Read;
  }

  /** If nothing moved, nothing could be moved, and what is detached could not be. */
  lemma SettledDetached(a: View, b: View, c: View, hash: Vec -> Checksum, stripes: map<StripeId, StripeRow>,
                        s: StripeId, source: DiskId)
    requires Settled(a, b, hash, stripes, s, source) && c == b.(shards := Detached(b.shards, s, source))
    requires OfStripe(OnDisk(b.shards, source), s) == OfStripe(OnDisk(a.shards, source), s)
    ensures Settled(a, c, hash, stripes, s, source)
  {
    hide Movable;
    forall key | key in OfStripe(OnDisk(a.shards, source), s)
      ensures SettledAt(a, c, hash, stripes, source, key)
    {
      assert SettledAt(a, b, hash, stripes, source, key);
      assert key in OfStripe(OnDisk(b.shards, source), s);
    }
  }

  // ---------------------------------------------------------------- a run

  lemma OnCourseStart(v: View, hash: Vec -> Checksum, stripes: map<StripeId, StripeRow>, source: DiskId)
    ensures OnCourse(v, v, hash, stripes, source)
  {
    hide Movable;
  }

  /** A shard of a stripe that is not touched can be moved if it could be before. */
  lemma MovableStays(a: View, b: View, hash: Vec -> Checksum, stripes: map<StripeId, StripeRow>, source: DiskId,
                     key: ShardKey)
    requires a.shards.Keys == b.shards.Keys && Worn(a.disks, b.disks) && Faulted(a.disks, b.disks) <= {source}
    requires forall i: nat :: b.Read(hash, key.stripe, i) == a.Read(hash, key.stripe, i)
    requires forall c :: c in a.shards && c.stripe == key.stripe ==> b.shards[c].disk == a.shards[c].disk
    ensures Movable(b, hash, stripes, source, key) <==> Movable(a, hash, stripes, source, key)
  {
    hide *;
    if key.stripe in stripes && !stripes[key.stripe].state.Pending? {
      var s, n := key.stripe, stripes[key.stripe].k + stripes[key.stripe].m;
      MovableIf(a, hash, stripes, source, key);
      MovableIf(b, hash, stripes, source, key);
      FewerGood(a, b, hash, s, n);
      FewerGood(b, a, hash, s, n);
      SameKept(a, b, hash, s, n, {source});
      SameDisksOn(a, b, s, KeptShards(a, hash, s, n, {source}));
      SameRoom(a, b, s, KeptShards(a, hash, s, n, {source}), {source});
      SameFindsRoom(a, b, hash, s, n, {source}, key.idx);
    } else {
      NotMovable(a, hash, stripes, source, key);
      NotMovable(b, hash, stripes, source, key);
    }
  }

  lemma NotMovable(v: View, hash: Vec -> Checksum, stripes: map<StripeId, StripeRow>, source: DiskId, key: ShardKey)
    requires key.stripe !in stripes || stripes[key.stripe].state.Pending?
    ensures !Movable(v, hash, stripes, source, key)
  {}

  lemma SameKept(a: View, b: View, hash: Vec -> Checksum, s: StripeId, n: nat, force: set<DiskId>)
    requires a.shards.Keys == b.shards.Keys && forall i: nat :: b.Read(hash, s, i) == a.Read(hash, s, i)
    requires forall c :: c in a.shards && c.stripe == s ==> b.shards[c].disk == a.shards[c].disk
    ensures KeptShards(b, hash, s, n, force) == KeptShards(a, hash, s, n, force)
  {
    forall i: nat
      ensures NeedsWrite(b, hash, s, i, force) <==> NeedsWrite(a, hash, s, i, force)
    {
      if a.Read(hash, s, i).Some? {
        ReadMeansRow(a, hash, s, i);
      }
      hide View.Read;
    }
    hide NeedsWrite, View.Read;
  }

  lemma SameDisksOn(a: View, b: View, s: StripeId, on: set<nat>)
    requires a.shards.Keys == b.shards.Keys
    requires forall c :: c in a.shards && c.stripe == s ==> b.shards[c].disk == a.shards[c].disk
    ensures DisksOn(a, s, on) == DisksOn(b, s, on)
  {
    assert forall i :: ShardKey(s, i) in a.shards <==> ShardKey(s, i) in b.shards;
    assert forall i :: ShardKey(s, i) in a.shards ==> b.shards[ShardKey(s, i)].disk == a.shards[ShardKey(s, i)].disk;
  }

  lemma SameFindsRoom(a: View, b: View, hash: Vec -> Checksum, s: StripeId, n: nat, force: set<DiskId>, i: nat)
    requires var kept := KeptShards(a, hash, s, n, force);
             KeptShards(b, hash, s, n, force) == kept && Room(b, s, kept, force) == Room(a, s, kept, force)
    ensures FindsRoom(b, hash, s, n, force, i) <==> FindsRoom(a, hash, s, n, force, i)
  {
    hide KeptShards, Room;
  }

  /** One more stripe has been moved. */
  lemma OnCourseNext(v: View, a: View, b: View, hash: Vec -> Checksum, stripes: map<StripeId, StripeRow>,
                     source: DiskId, s: StripeId, lost: nat)
    requires OnCourse(v, a, hash, stripes, source) && StripeMoved(a, b, hash, stripes, s, source, lost)
    requires Faulted(a.disks, b.disks) <= {source} ==> Settled(a, b, hash, stripes, s, source)
    requires forall key :: key in OnDisk(v.shards, source) && key.stripe == s ==>
               key in a.shards && a.shards[key].disk.Some?
    ensures OnCourse(v, b, hash, stripes, source)
  {
    hide *;
    CourseParts(v, a, b, hash, stripes, source, s, lost);
    if Faulted(v.disks, b.disks) <= {source} {
      forall key | key in OnDisk(v.shards, source)
        ensures ForeseenAt(v, b, hash, stripes, source, key)
      {
        ForeseenKey(v, a, hash, stripes, source, key);
        if key.stripe == s {
          ForeseenHere(v, a, b, hash, stripes, source, s, lost, key);
        } else {
          ForeseenThere(v, a, b, hash, stripes, source, s, lost, key);
        }
      }
      ForeseenFrom(v, b, hash, stripes, source);
    }
    CourseFrom(v, b, hash, stripes, source);
  }

  lemma CourseParts(v: View, a: View, b: View, hash: Vec -> Checksum, stripes: map<StripeId, StripeRow>,
                    source: DiskId, s: StripeId, lost: nat)
    requires OnCourse(v, a, hash, stripes, source) && StripeMoved(a, b, hash, stripes, s, source, lost)
    ensures Worn(v.disks, b.disks)
    ensures Faulted(v.disks, b.disks) <= {source} ==>
              Faulted(a.disks, b.disks) <= {source} && Foreseen(v, a, hash, stripes, source)
  {
    WornTrans(v.disks, a.disks, b.disks);
    hide View.Read, Worn, Faulted, OnDisk, Stuck, Foreseen;
  }

  lemma CourseFrom(v: View, b: View, hash: Vec -> Checksum, stripes: map<StripeId, StripeRow>, source: DiskId)
    requires Worn(v.disks, b.disks)
    requires Faulted(v.disks, b.disks) <= {source} ==> Foreseen(v, b, hash, stripes, source)
    ensures OnCourse(v, b, hash, stripes, source)
  {
    hide Worn, Faulted, Foreseen;
  }

  lemma ForeseenKey(v: View, a: View, hash: Vec -> Checksum, stripes: map<StripeId, StripeRow>, source: DiskId,
                    key: ShardKey)
    requires Foreseen(v, a, hash, stripes, source) && key in OnDisk(v.shards, source)
    ensures ForeseenAt(v, a, hash, stripes, source, key) && key in a.shards
  {
    hide Movable, OnDisk;
  }

  lemma ForeseenFrom(v: View, b: View, hash: Vec -> Checksum, stripes: map<StripeId, StripeRow>, source: DiskId)
    requires forall key :: key in OnDisk(v.shards, source) ==> ForeseenAt(v, b, hash, stripes, source, key)
    ensures Foreseen(v, b, hash, stripes, source)
  {
    hide ForeseenAt, OnDisk;
  }

  /** A shard of the stripe that was moved. */
  lemma ForeseenHere(v: View, a: View, b: View, hash: Vec -> Checksum, stripes: map<StripeId, StripeRow>,
                     source: DiskId, s: StripeId, lost: nat, key: ShardKey)
    requires ForeseenAt(v, a, hash, stripes, source, key) && Settled(a, b, hash, stripes, s, source)
    requires StripeMoved(a, b, hash, stripes, s, source, lost) && key.stripe == s
    requires key in a.shards && a.shards[key].disk.Some?
    ensures ForeseenAt(v, b, hash, stripes, source, key)
  {
    hide Movable, View.Read, Worn, Stuck;
    if a.shards[key].disk == Some(source) {
      assert key in OfStripe(OnDisk(a.shards, source), s);
      assert SettledAt(a, b, hash, stripes, source, key);
    } else {
      assert key !in OnDisk(b.shards, source);
    }
  }

  /** A shard of another stripe. */
  lemma ForeseenThere(v: View, a: View, b: View, hash: Vec -> Checksum, stripes: map<StripeId, StripeRow>,
                      source: DiskId, s: StripeId, lost: nat, key: ShardKey)
    requires ForeseenAt(v, a, hash, stripes, source, key) && key.stripe != s && key in a.shards
    requires StripeMoved(a, b, hash, stripes, s, source, lost) && Faulted(a.disks, b.disks) <= {source}
    ensures ForeseenAt(v, b, hash, stripes, source, key)
  {
    OthersStay(a, b, hash, stripes, source, s, lost);
    hide StripeMoved, Movable, View.Read, Worn, Faulted;
    MovableStays(a, b, hash, stripes, source, key);
  }

  lemma OthersStay(a: View, b: View, hash: Vec -> Checksum, stripes: map<StripeId, StripeRow>, source: DiskId,
                   s: StripeId, lost: nat)
    requires StripeMoved(a, b, hash, stripes, s, source, lost)
    ensures a.shards.Keys == b.shards.Keys && Worn(a.disks, b.disks)
    ensures forall key :: key in a.shards && key.stripe != s ==> b.shards[key].disk == a.shards[key].disk
    ensures forall t: StripeId, i: nat :: t != s ==> b.Read(hash, t, i) == a.Read(hash, t, i)
  {
    hide View.Read, Worn, Stuck, OnDisk;
  }

  /** A stripe that still has shards on the source has lost none. */
  lemma NoneLost(view: View, live: View, hash: Vec -> Checksum, stripes: map<StripeId, StripeRow>, source: DiskId,
                 failed: nat, s: StripeId)
    requires Evacuated(view, live, hash, stripes, source, failed) && OfStripe(OnDisk(live.shards, source), s) != {}
    ensures forall key :: key in OnDisk(view.shards, source) && key.stripe == s ==>
              key in live.shards && live.shards[key].disk.Some?
  {
    hide View.Read, Stuck, Aged, OfStripe;
    forall key | key in OnDisk(view.shards, source) && key.stripe == s
      ensures key in live.shards && live.shards[key].disk.Some?
    {
      assert key in Abandoned(view.shards, live.shards, source) <==> live.shards[key].disk.None?;
    }
  }

  /** Movable now is movable by the stripe rows of the start. */
  lemma SettledRows(a: View, b: View, hash: Vec -> Checksum, first: map<StripeId, StripeRow>,
                    stripes: map<StripeId, StripeRow>, s: StripeId, source: DiskId)
    requires SameStripes(first, stripes) && Settled(a, b, hash, stripes, s, source)
    ensures Settled(a, b, hash, first, s, source)
  {
    hide View.Read, FindsRoom;
    forall key | key in OfStripe(OnDisk(a.shards, source), s)
      ensures SettledAt(a, b, hash, first, source, key)
    {
      assert SettledAt(a, b, hash, stripes, source, key);
    }
  }

  // ---------------------------------------------------------------- the end of a run

  /** The state a run starts in: the target is being rebuilt. */
  function Begun(v: View, target: Option<DiskId>): View {
    v.(disks := if target.Some? then WithStatus(v.disks, target.value, Rebuilding) else v.disks)
  }

  lemma PartedFrom(v: View, live: View, hash: Vec -> Checksum, stripes: map<StripeId, StripeRow>, source: DiskId)
    requires OnCourse(v, live, hash, stripes, source)
    ensures Faulted(v.disks, live.disks) <= {source} ==> Parted(v, live.shards, hash, stripes, source)
  {
    hide Movable, Worn, Faulted, OnDisk;
    if Faulted(v.disks, live.disks) <= {source} {
      forall key | key in OnDisk(v.shards, source)
        ensures key in live.shards
                && (live.shards[key].disk != Some(source) ==>
                      (live.shards[key].disk.Some? <==> Movable(v, hash, stripes, source, key)))
      {
        assert ForeseenAt(v, live, hash, stripes, source, key);
      }
    }
  }

  /** The shards given up could not be moved, and at the end of a run they are all that could not. */
  lemma AbandonedStranded(v: View, shards: map<ShardKey, ShardRow>, hash: Vec -> Checksum,
                          stripes: map<StripeId, StripeRow>, source: DiskId)
    requires Parted(v, shards, hash, stripes, source)
    ensures Abandoned(v.shards, shards, source) <= Stranded(v, hash, stripes, source)
    ensures OnDisk(shards, source) == {} ==> Abandoned(v.shards, shards, source) == Stranded(v, hash, stripes, source)
  {
    hide Movable;
    forall key | key in Abandoned(v.shards, shards, source)
      ensures key in Stranded(v, hash, stripes, source)
    {}
    if OnDisk(shards, source) == {} {
      forall key | key in Stranded(v, hash, stripes, source)
        ensures key in Abandoned(v.shards, shards, source)
      {
        assert key !in OnDisk(shards, source);
      }
    }
  }

  /** A run that ended without errors of other disks gives up exactly the shards that could not be moved: it is done
      if and only if there were none, and every shard that verified still does if and only if none of them did. */
  ghost predicate WentAsForeseen(before: View, after: View, hash: Vec -> Checksum, stripes: map<StripeId, StripeRow>,
                                 source: DiskId, target: Option<DiskId>, done: bool)
  {
    var v := Begun(before, target);
    Abandoned(before.shards, after.shards, source) == Stranded(v, hash, stripes, source)
    && (done <==> forall key :: key in OnDisk(before.shards, source) ==> Movable(v, hash, stripes, source, key))
    && (AllReadsKept(before, after, hash)
        <==> forall key :: key in OnDisk(before.shards, source) && before.Read(hash, key.stripe, key.idx).Some? ==>
               Movable(v, hash, stripes, source, key))
  }

  lemma RunEnds(before: View, after: View, hash: Vec -> Checksum, stripes: map<StripeId, StripeRow>, source: DiskId,
                target: Option<DiskId>, failed: nat)
    requires Evacuated(before, after, hash, stripes, source, failed) && OnDisk(after.shards, source) == {}
    requires Parted(Begun(before, target), after.shards, hash, stripes, source)
    ensures WentAsForeseen(before, after, hash, stripes, source, target, failed == 0)
  {
    hide *;
    var v := Begun(before, target);
    BegunShards(before, target);
    AbandonedStranded(v, after.shards, hash, stripes, source);
    EvacuatedParts(before, after, hash, stripes, source, failed);
    StrandedIs(v, before, hash, stripes, source);
    NonEmpty(Stranded(v, hash, stripes, source));
    WentFrom(before, after, hash, stripes, source, target, failed == 0);
  }

  lemma StrandedIs(v: View, before: View, hash: Vec -> Checksum, stripes: map<StripeId, StripeRow>, source: DiskId)
    requires v.shards == before.shards
    ensures Stranded(v, hash, stripes, source) == {}
            <==> forall key :: key in OnDisk(before.shards, source) ==> Movable(v, hash, stripes, source, key)
    ensures (forall key :: key in Stranded(v, hash, stripes, source) ==>
               before.Read(hash, key.stripe, key.idx).None?)
            <==> forall key :: key in OnDisk(before.shards, source) && before.Read(hash, key.stripe, key.idx).Some? ==>
                   Movable(v, hash, stripes, source, key)
  {
    hide Movable, View.Read, OnDisk;
    assert forall key :: key in Stranded(v, hash, stripes, source)
                         <==> key in OnDisk(before.shards, source) && !Movable(v, hash, stripes, source, key);
    hide Stranded;
  }

  lemma WentFrom(before: View, after: View, hash: Vec -> Checksum, stripes: map<StripeId, StripeRow>, source: DiskId,
                 target: Option<DiskId>, done: bool)
    requires var v := Begun(before, target);
             Abandoned(before.shards, after.shards, source) == Stranded(v, hash, stripes, source)
             && (done <==> forall key :: key in OnDisk(before.shards, source) ==>
                             Movable(v, hash, stripes, source, key))
             && (AllReadsKept(before, after, hash)
                 <==> forall key :: key in OnDisk(before.shards, source)
                                    && before.Read(hash, key.stripe, key.idx).Some? ==>
                        Movable(v, hash, stripes, source, key))
    ensures WentAsForeseen(before, after, hash, stripes, source, target, done)
  {
    hide Movable, View.Read, OnDisk, Abandoned, Stranded, AllReadsKept, Begun;
  }

  lemma BegunShards(before: View, target: Option<DiskId>)
    ensures Begun(before, target).shards == before.shards
  {}

  lemma BegunIs(before: View, v: View, target: Option<DiskId>)
    requires v.files == before.files && v.shards == before.shards
    requires v.disks == if target.Some? then WithStatus(before.disks, target.value, Rebuilding) else before.disks
    ensures v == Begun(before, target) && v.shards == before.shards
    ensures SameCounters(before.disks, v.disks)
    ensures target.Some? && target.value in v.disks ==> v.disks[target.value].status == Rebuilding
  {}

  ghost predicate SameCounters(a: map<DiskId, Disk>, b: map<DiskId, Disk>) {
    a.Keys == b.Keys && forall d :: d in a ==> b[d].errors == a[d].errors
  }

  lemma StatusErrors(disks: map<DiskId, Disk>, d: DiskId, status: DiskStatus)
    ensures SameCounters(disks, WithStatus(disks, d, status))
    ensures d in disks ==> d in WithStatus(disks, d, status) && WithStatus(disks, d, status)[d].status == status
    ensures forall c :: c in disks && c != d ==>
              c in WithStatus(disks, d, status) && WithStatus(disks, d, status)[c] == disks[c]
  {}

  lemma SameErrors(a: map<DiskId, Disk>, b: map<DiskId, Disk>, c: map<DiskId, Disk>, d: map<DiskId, Disk>)
    requires SameCounters(a, b) && SameCounters(c, d)
    ensures Faulted(b, c) == Faulted(a, d)
  {}

  // ---------------------------------------------------------------- replacing a disk, with and without room

  /** The case a replacement is made for: the other shards of the stripe verify elsewhere, and the new disk
      holds none of them. */
  lemma SpareDiskSuffices(v: View, hash: Vec -> Checksum, stripes: map<StripeId, StripeRow>, source: DiskId,
                          key: ShardKey, spare: DiskId)
    requires key in OnDisk(v.shards, source) && key.stripe in stripes && !stripes[key.stripe].state.Pending?
    requires var n := stripes[key.stripe].k + stripes[key.stripe].m;
             key.idx < n
             && (forall i: nat :: i < n && i != key.idx ==> !NeedsWrite(v, hash, key.stripe, i, {source}))
             && spare !in DisksOn(v, key.stripe, Range(n))
    requires stripes[key.stripe].m > 0 || v.Read(hash, key.stripe, key.idx).Some?
    requires spare in v.disks && Writable(v.disks[spare].status) && spare != source
    ensures Movable(v, hash, stripes, source, key)
  {
    hide *;
    var s, i, n := key.stripe, key.idx, stripes[key.stripe].k + stripes[key.stripe].m;
    OnDiskKey(v.shards, source, key);
    OthersKept(v, hash, s, n, source, i);
    OthersGood(v, hash, s, n, source, i);
    SpareInRoom(v, s, n, KeptShards(v, hash, s, n, {source}), source, spare);
    OneFindsRoom(v, hash, s, n, source, i);
    MovableIf(v, hash, stripes, source, key);
  }

  lemma OnDiskKey(shards: map<ShardKey, ShardRow>, source: DiskId, key: ShardKey)
    requires key in OnDisk(shards, source)
    ensures ShardKey(key.stripe, key.idx) in shards && shards[ShardKey(key.stripe, key.idx)].disk == Some(source)
  {
    assert key == ShardKey(key.stripe, key.idx);
  }

  lemma OthersKept(v: View, hash: Vec -> Checksum, s: StripeId, n: nat, source: DiskId, i: nat)
    requires ShardKey(s, i) in v.shards && v.shards[ShardKey(s, i)].disk == Some(source) && i < n
    requires forall j: nat :: j < n && j != i ==> !NeedsWrite(v, hash, s, j, {source})
    ensures KeptShards(v, hash, s, n, {source}) == Range(n) - {i}
  {
    SourceNeeds(v, hash, s, n, source, i);
    hide NeedsWrite;
  }

  lemma OthersGood(v: View, hash: Vec -> Checksum, s: StripeId, n: nat, source: DiskId, i: nat)
    requires i < n && KeptShards(v, hash, s, n, {source}) == Range(n) - {i}
    ensures |v.Good(hash, s, n)| >= n - if v.Read(hash, s, i).Some? then 0 else 1
  {
    var good := v.Good(hash, s, n);
    forall j | j in Range(n) - {i}
      ensures j in good
    {
      KeptReads(v, hash, s, n, {source}, j);
    }
    hide View.Read, KeptShards;
    assert |Range(n) - {i}| == n - 1;
    if v.Read(hash, s, i).Some? {
      SubsetSize(Range(n), good.Keys);
    } else {
      SubsetSize(Range(n) - {i}, good.Keys);
    }
  }

  lemma SpareInRoom(v: View, s: StripeId, n: nat, kept: set<nat>, source: DiskId, spare: DiskId)
    requires kept <= Range(n) && spare !in DisksOn(v, s, Range(n))
    requires spare in v.disks && Writable(v.disks[spare].status) && spare != source
    ensures spare in Room(v, s, kept, {source})
  {
    assert DisksOn(v, s, kept) <= DisksOn(v, s, Range(n));
    hide DisksOn;
  }

  lemma OneFindsRoom(v: View, hash: Vec -> Checksum, s: StripeId, n: nat, source: DiskId, i: nat)
    requires i < n && KeptShards(v, hash, s, n, {source}) == Range(n) - {i}
             && Room(v, s, Range(n) - {i}, {source}) != {}
    ensures FindsRoom(v, hash, s, n, {source}, i)
  {
    hide KeptShards, Room;
    assert Below(Range(n) - (Range(n) - {i}), i) == {};
    NonEmpty(Room(v, s, Range(n) - {i}, {source}));
  }

  /** A pair of copies on two disks, both writable and without errors, and no other disk. */
  function Pair(hash: Vec -> Checksum): (v: View) {
    View(map[0 := Disk(Online, 0, 0), 1 := Disk(Online, 0, 0)],
         map[Path(0, 7, 0) := File(Some(ShardHeader(0, 1, 1, 7, 0, hash([]), 0, 0, 0, "key")), []),
             Path(1, 7, 1) := File(Some(ShardHeader(1, 1, 1, 7, 0, hash([]), 0, 0, 0, "key")), [])],
         map[ShardKey(7, 0) := ShardRow(Some(0), Some(hash([])), Fine),
             ShardKey(7, 1) := ShardRow(Some(1), Some(hash([])), Fine)])
  }

  function PairRows(): map<StripeId, StripeRow> {
    map[7 := StripeRow(0, 0, 1, 1, 0, 0, 0, Committed, 0)]
  }

  lemma PairReads(hash: Vec -> Checksum)
    ensures Pair(hash).Read(hash, 7, 0).Some? && Pair(hash).Read(hash, 7, 1).Some?
  {
    var v := Pair(hash);
    assert ReadShard(v.files, hash, Path(0, 7, 0), Some(hash([]))) == Payload([]);
    assert ReadShard(v.files, hash, Path(1, 7, 1), Some(hash([]))) == Payload([]);
  }

  /** Without a target, a run that empties the first disk detaches its copy, though it could be read. */
  lemma PairStranded(hash: Vec -> Checksum, after: View, done: bool)
    requires WentAsForeseen(Pair(hash), after, hash, PairRows(), 0, None, done)
    ensures Pair(hash).Read(hash, 7, 0).Some? && ShardKey(7, 0) in after.shards
    ensures after.shards[ShardKey(7, 0)].disk.None? && !done && !AllReadsKept(Pair(hash), after, hash)
  {
    var v := Pair(hash);
    PairReads(hash);
    PairNoRoom(hash);
    assert Begun(v, None) == v;
    hide Movable, View.Read, AllReadsKept;
    assert ShardKey(7, 0) in OnDisk(v.shards, 0);
    assert ShardKey(7, 0) in Stranded(v, hash, PairRows(), 0);
  }

  lemma PairNoRoom(hash: Vec -> Checksum)
    ensures !Movable(Pair(hash), hash, PairRows(), 0, ShardKey(7, 0))
  {
    var v := Pair(hash);
    PairReads(hash);
    hide View.Read;
    var kept := KeptShards(v, hash, 7, 2, {0});
    assert 1 in kept;
    assert 1 in DisksOn(v, 7, kept);
    assert Room(v, 7, kept, {0}) == {};
  }
}
