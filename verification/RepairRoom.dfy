/** When a repair finds room for every shard, and what happens when it does not. */
module RepairRoom {
  import opened Wrappers
  import opened LinearAlgebra
  import opened StoreTypes
  import opened StoreViews
  import opened Placement
  import opened StoreRepairing

  lemma OnDisksSize(v: View, s: StripeId, on: set<nat>)
    ensures |DisksOn(v, s, on)| <= |on|
    decreases on
  {
    if on == {} {
      assert DisksOn(v, s, on) == {};
    } else {
      var i :| i in on;
      OnDisksSize(v, s, on - {i});
      var here := DisksOn(v, s, {i});
      assert DisksOn(v, s, on) == DisksOn(v, s, on - {i}) + here;
      OneDisk(v, s, i);
    }
  }

  lemma OneDisk(v: View, s: StripeId, i: nat)
    ensures |DisksOn(v, s, {i})| <= 1
  {
    if ShardKey(s, i) in v.shards && v.shards[ShardKey(s, i)].disk.Some? {
      assert DisksOn(v, s, {i}) == {v.shards[ShardKey(s, i)].disk.value};
    } else {
      assert DisksOn(v, s, {i}) == {};
    }
  }

  /** Shards on different disks are on as many disks. */
  lemma ApartSize(v: View, s: StripeId, on: set<nat>)
    requires ApartOn(v, s, on)
    ensures |DisksOn(v, s, on)| == |on|
    decreases on
  {
    if on == {} {
      assert DisksOn(v, s, on) == {};
    } else {
      var i :| i in on;
      ApartSize(v, s, on - {i});
      var d := v.shards[ShardKey(s, i)].disk.value;
      assert DisksOn(v, s, on) == DisksOn(v, s, on - {i}) + {d};
      assert d !in DisksOn(v, s, on - {i});
    }
  }

  /** Writable disks outside force that hold none of the shards that stay. */
  ghost function Room(v: View, s: StripeId, kept: set<nat>, force: set<DiskId>): set<DiskId> {
    Candidates(v.disks, DisksOn(v, s, kept) + force)
  }

  /** There is room for shard j: more disks than shards before it that need writing. All of this is known
      before the repair. */
  ghost predicate FindsRoom(v: View, hash: Vec -> Checksum, s: StripeId, n: nat, force: set<DiskId>, j: nat) {
    var kept := KeptShards(v, hash, s, n, force);
    |Below(Range(n) - kept, j)| < |Room(v, s, kept, force)|
  }

  // ---------------------------------------------------------------- who gets a disk

  /** Shards of todo that were placed took disks of the room, each its own. */
  lemma PlacedFew(a: View, b: View, s: StripeId, kept: set<nat>, out: Outcome, todo: set<nat>, force: set<DiskId>,
                  some: set<nat>)
    requires Accounted(b, a.disks, s, kept, out, todo, force) && DisksOn(a, s, kept) == DisksOn(b, s, kept)
    requires some <= out.placed
    ensures |some| <= |Room(a, s, kept, force)|
  {
    assert ApartOn(b, s, some);
    ApartSize(b, s, some);
    forall d | d in DisksOn(b, s, some)
      ensures d in Room(a, s, kept, force)
    {
      var i :| i in some && ShardKey(s, i) in b.shards && b.shards[ShardKey(s, i)].disk == Some(d);
      PlacedInRoom(a, b, s, kept, out, todo, force, i);
    }
    SubsetSize(DisksOn(b, s, some), Room(a, s, kept, force));
    hide Accounted, ApartOn, DisksOn, Candidates;
  }

  lemma PlacedInRoom(a: View, b: View, s: StripeId, kept: set<nat>, out: Outcome, todo: set<nat>, force: set<DiskId>,
                     i: nat)
    requires Accounted(b, a.disks, s, kept, out, todo, force) && DisksOn(a, s, kept) == DisksOn(b, s, kept)
    requires i in out.placed
    ensures ShardKey(s, i) in b.shards && b.shards[ShardKey(s, i)].disk.Some?
    ensures b.shards[ShardKey(s, i)].disk.value in Room(a, s, kept, force)
    ensures b.shards[ShardKey(s, i)].disk.value in Candidates(a.disks, force)
  {
    assert Housed(b, a.disks, s, i, force);
    assert b.shards[ShardKey(s, i)].disk.value in DisksOn(b, s, out.placed);
  }

  /** A shard is left without a disk only when those placed before it have taken the whole room. */
  lemma RoomTaken(b: View, s: StripeId, kept: set<nat>, placed: set<nat>, force: set<DiskId>, i: nat)
    requires NoRoom(b, s, kept + Below(placed, i), force)
    ensures Room(b, s, kept, force) <= DisksOn(b, s, Below(placed, i))
  {
    forall d | d in Room(b, s, kept, force)
      ensures d in DisksOn(b, s, Below(placed, i))
    {
      assert d !in Candidates(b.disks, DisksOn(b, s, kept + Below(placed, i)) + force);
    }
  }

  lemma StarvedFew(a: View, b: View, s: StripeId, kept: set<nat>, out: Outcome, todo: set<nat>, force: set<DiskId>,
                   j: nat)
    requires Accounted(b, a.disks, s, kept, out, todo, force) && j in out.starved
    requires Room(b, s, kept, force) == Room(a, s, kept, force)
    ensures |Room(a, s, kept, force)| <= |Below(todo, j)|
  {
    var below := Below(out.placed, j);
    RoomTaken(b, s, kept, out.placed, force, j);
    SubsetSize(Room(a, s, kept, force), DisksOn(b, s, below));
    OnDisksSize(b, s, below);
    SubsetSize(below, Below(todo, j));
    hide Accounted, DisksOn, Candidates;
  }

  /** No shard is placed after one that was left without a disk. */
  lemma PlacedBefore(a: View, b: View, s: StripeId, kept: set<nat>, out: Outcome, todo: set<nat>, force: set<DiskId>,
                     i: nat, j: nat)
    requires Accounted(b, a.disks, s, kept, out, todo, force) && DisksOn(a, s, kept) == DisksOn(b, s, kept)
    requires Room(b, s, kept, force) == Room(a, s, kept, force) && i in out.starved && j in out.placed
    ensures j < i
  {
    RoomTaken(b, s, kept, out.placed, force, i);
    PlacedInRoom(a, b, s, kept, out, todo, force, j);
    var t :| t in Below(out.placed, i) && b.shards[ShardKey(s, t)].disk == b.shards[ShardKey(s, j)].disk;
    assert t == j;
  }

  /** Without failed writes a shard is placed if and only if there is room for it. */
  lemma PlacedExactly(a: View, b: View, s: StripeId, kept: set<nat>, out: Outcome, todo: set<nat>, force: set<DiskId>,
                      j: nat)
    requires Accounted(b, a.disks, s, kept, out, todo, force) && DisksOn(a, s, kept) == DisksOn(b, s, kept)
    requires Room(b, s, kept, force) == Room(a, s, kept, force) && out.failed == map[] && j in todo
    ensures j in out.placed <==> |Below(todo, j)| < |Room(a, s, kept, force)|
  {
    hide *;
    FatesParts(b, a.disks, s, kept, out, todo, force);
    if j in out.placed {
      forall i | i in Below(todo, j)
        ensures i in out.placed
      {
        BelowParts(todo, j, i);
        if i in out.starved {
          PlacedBefore(a, b, s, kept, out, todo, force, i, j);
        }
      }
      BelowSize(todo, j);
      PlacedFew(a, b, s, kept, out, todo, force, Below(todo, j) + {j});
    } else {
      StarvedFew(a, b, s, kept, out, todo, force, j);
    }
  }

  lemma BelowParts(todo: set<nat>, j: nat, i: nat)
    ensures i in Below(todo, j) <==> i in todo && i < j
  {}

  lemma BelowLess(todo: set<nat>, j: nat)
    requires j in todo
    ensures Below(todo, j) + {j} <= todo
  {}

  lemma BelowSize(todo: set<nat>, j: nat)
    ensures |Below(todo, j) + {j}| == |Below(todo, j)| + 1
  {
    assert j !in Below(todo, j);
  }

  lemma FatesParts(v: View, before: map<DiskId, Disk>, s: StripeId, kept: set<nat>, out: Outcome, todo: set<nat>,
                   force: set<DiskId>)
    requires Accounted(v, before, s, kept, out, todo, force)
    ensures out.placed <= todo && out.placed + out.starved + out.failed.Keys == todo && out.placed !! out.starved
    ensures forall i :: i in out.failed ==> out.failed[i] in Candidates(before, force)
    ensures forall i :: i in out.starved ==> NoRoom(v, s, kept + Below(out.placed, i), force)
  {
    hide NoRoom, Candidates, Housed, Alone;
  }

  // ---------------------------------------------------------------- a repair without disk errors

  /** What a repair of a stripe with enough verifiable shards promises, when no disk reported an error
      except those that it was to vacate. */
  ghost predicate QuietRepair(a: View, b: View, hash: Vec -> Checksum, s: StripeId, row: StripeRow, data: Vec,
                              out: Outcome, force: set<DiskId>)
  {
    var n := row.k + row.m;
    var kept := KeptShards(a, hash, s, n, force);
    Repaired(a, b, hash, s, row, data, out.placed, force) && Worn(a.disks, b.disks)
    && AllTallied(a, b.disks, hash, s, n, out.failed) && Faulted(a.disks, b.disks) <= force
    && Accounted(b, a.disks, s, kept, out, Range(n) - kept, force)
  }

  lemma QuietParts(a: View, b: View, hash: Vec -> Checksum, s: StripeId, row: StripeRow, data: Vec, out: Outcome,
                   force: set<DiskId>)
    requires QuietRepair(a, b, hash, s, row, data, out, force)
    ensures var kept := KeptShards(a, hash, s, row.k + row.m, force);
            Accounted(b, a.disks, s, kept, out, Range(row.k + row.m) - kept, force)
            && DisksOn(a, s, kept) == DisksOn(b, s, kept) && Room(b, s, kept, force) == Room(a, s, kept, force)
            && out.placed + out.starved == Range(row.k + row.m) - kept
    ensures out.failed == map[] && OnlyMoved(a.shards, b.shards, s, out.placed)
    ensures Worn(a.disks, b.disks) && Faulted(a.disks, b.disks) <= force
  {
    hide *;
    var kept := KeptShards(a, hash, s, row.k + row.m, force);
    QuietIs(a, b, hash, s, row, data, out, force);
    FatesParts(b, a.disks, s, kept, out, Range(row.k + row.m) - kept, force);
    MovedOnly(a, b, hash, s, row, data, out.placed, force);
    DisksUnmoved(a, b, s, out.placed, kept);
    NoFailures(a, b, hash, s, row.k + row.m, out.failed, force);
    SameRoom(a, b, s, kept, force);
  }

  lemma QuietIs(a: View, b: View, hash: Vec -> Checksum, s: StripeId, row: StripeRow, data: Vec, out: Outcome,
                force: set<DiskId>)
    requires QuietRepair(a, b, hash, s, row, data, out, force)
    ensures var n := row.k + row.m;
            var kept := KeptShards(a, hash, s, n, force);
            Repaired(a, b, hash, s, row, data, out.placed, force) && Worn(a.disks, b.disks)
            && AllTallied(a, b.disks, hash, s, n, out.failed) && Faulted(a.disks, b.disks) <= force
            && Accounted(b, a.disks, s, kept, out, Range(n) - kept, force)
  {
    hide KeptShards, Accounted, Repaired, AllTallied, Worn, Faulted;
  }

  lemma SameRoom(a: View, b: View, s: StripeId, kept: set<nat>, force: set<DiskId>)
    requires Worn(a.disks, b.disks) && Faulted(a.disks, b.disks) <= force && DisksOn(a, s, kept) == DisksOn(b, s, kept)
    ensures Room(b, s, kept, force) == Room(a, s, kept, force)
  {
    SameCandidates(a.disks, b.disks, DisksOn(a, s, kept), force);
    hide Worn, Faulted, DisksOn, Candidates;
  }

  lemma MovedOnly(a: View, b: View, hash: Vec -> Checksum, s: StripeId, row: StripeRow, data: Vec, placed: set<nat>,
                  force: set<DiskId>)
    requires Repaired(a, b, hash, s, row, data, placed, force)
    ensures OnlyMoved(a.shards, b.shards, s, placed)
  {
    hide View.Read, ApartOn, KeptShards, Restored, OnlyMoved;
  }

  lemma DisksUnmoved(a: View, b: View, s: StripeId, placed: set<nat>, on: set<nat>)
    requires OnlyMoved(a.shards, b.shards, s, placed) && placed !! on
    ensures DisksOn(a, s, on) == DisksOn(b, s, on)
  {
    assert forall i :: ShardKey(s, i) in a.shards <==> ShardKey(s, i) in b.shards;
    assert forall i :: i in on && ShardKey(s, i) in a.shards ==>
             b.shards[ShardKey(s, i)].disk == a.shards[ShardKey(s, i)].disk;
  }

  lemma NoFailures(a: View, b: View, hash: Vec -> Checksum, s: StripeId, n: nat, failed: map<nat, DiskId>,
                   force: set<DiskId>)
    requires AllTallied(a, b.disks, hash, s, n, failed) && Faulted(a.disks, b.disks) <= force
    requires forall i :: i in failed ==> failed[i] in Candidates(a.disks, force)
    ensures failed == map[]
  {
    hide FaultyReads, Faulted;
    forall i | i in failed
      ensures failed[i] in Faulted(a.disks, b.disks)
    {
      FailedFaulted(a, b, hash, s, n, failed, i);
    }
  }

  lemma SameCandidates(a: map<DiskId, Disk>, b: map<DiskId, Disk>, exclude: set<DiskId>, force: set<DiskId>)
    requires Worn(a, b) && Faulted(a, b) <= force
    ensures Candidates(b, exclude + force) == Candidates(a, exclude + force)
  {
    forall d | d in a && d !in force
      ensures b[d] == a[d]
    {
      assert d !in Faulted(a, b);
    }
  }

  /** Exactly the shards that there is room for are placed. */
  lemma PlacedIfRoom(a: View, b: View, hash: Vec -> Checksum, s: StripeId, row: StripeRow, data: Vec, out: Outcome,
                     force: set<DiskId>, j: nat)
    requires QuietRepair(a, b, hash, s, row, data, out, force)
    requires j < row.k + row.m && j !in KeptShards(a, hash, s, row.k + row.m, force)
    ensures j in out.placed <==> FindsRoom(a, hash, s, row.k + row.m, force, j)
  {
    QuietParts(a, b, hash, s, row, data, out, force);
    var kept := KeptShards(a, hash, s, row.k + row.m, force);
    hide QuietRepair, Accounted, KeptShards, DisksOn, Room, OnlyMoved, Worn, Faulted;
    PlacedExactly(a, b, s, kept, out, Range(row.k + row.m) - kept, force, j);
  }

  /** A repair during which no other disk reports an error places every shard that needs writing if and
      only if there is a writable disk for each of them, outside force and free of the shards that stay. */
  lemma RepairCompletes(a: View, b: View, hash: Vec -> Checksum, s: StripeId, row: StripeRow, data: Vec, out: Outcome,
                        force: set<DiskId>)
    requires QuietRepair(a, b, hash, s, row, data, out, force)
    ensures var kept := KeptShards(a, hash, s, row.k + row.m, force);
            out.placed == Range(row.k + row.m) - kept
            <==> |Room(a, s, kept, force)| >= |Range(row.k + row.m) - kept|
  {
    hide *;
    var kept := KeptShards(a, hash, s, row.k + row.m, force);
    var todo := Range(row.k + row.m) - kept;
    QuietParts(a, b, hash, s, row, data, out, force);
    if out.placed == todo {
      PlacedFew(a, b, s, kept, out, todo, force, out.placed);
    } else {
      FatesParts(b, a.disks, s, kept, out, todo, force);
      var j :| j in todo && j !in out.placed;
      PlacedExactly(a, b, s, kept, out, todo, force, j);
      BelowSize(todo, j);
      BelowLess(todo, j);
      SubsetSize(Below(todo, j) + {j}, todo);
    }
  }

  /** After a repair that left a shard without a disk, no later one finds room. */
  lemma NoRoomAfterwards(a: View, b: View, hash: Vec -> Checksum, s: StripeId, row: StripeRow, data: Vec, out: Outcome,
                         force: set<DiskId>, j: nat)
    requires QuietRepair(a, b, hash, s, row, data, out, force)
    requires j < row.k + row.m && j !in KeptShards(a, hash, s, row.k + row.m, force) && j !in out.placed
    ensures Room(b, s, KeptShards(b, hash, s, row.k + row.m, force), force) == {}
  {
    hide *;
    var n := row.k + row.m;
    var kept := KeptShards(a, hash, s, n, force);
    QuietParts(a, b, hash, s, row, data, out, force);
    QuietIs(a, b, hash, s, row, data, out, force);
    FatesParts(b, a.disks, s, kept, out, Range(n) - kept, force);
    KeptMore(a, b, hash, s, row, data, out.placed, force);
    NoRoomIs(b, s, kept, out.placed, KeptShards(b, hash, s, n, force), force, j);
  }

  lemma KeptMore(a: View, b: View, hash: Vec -> Checksum, s: StripeId, row: StripeRow, data: Vec, placed: set<nat>,
                 force: set<DiskId>)
    requires Repaired(a, b, hash, s, row, data, placed, force)
    ensures KeptShards(a, hash, s, row.k + row.m, force) + placed <= KeptShards(b, hash, s, row.k + row.m, force)
  {
    hide View.Read, ApartOn, ShardOf;
    forall i | i in KeptShards(a, hash, s, row.k + row.m, force) + placed
      ensures i < row.k + row.m && !NeedsWrite(b, hash, s, i, force)
    {
      if i in placed {
        assert Restored(b, hash, s, row, data, i, force);
      } else {
        ReadMeansRow(a, hash, s, i);
        assert ShardKey(s, i) in b.shards && b.shards[ShardKey(s, i)].disk == a.shards[ShardKey(s, i)].disk;
      }
    }
  }

  lemma NoRoomIs(v: View, s: StripeId, kept: set<nat>, placed: set<nat>, more: set<nat>, force: set<DiskId>, j: nat)
    requires NoRoom(v, s, kept + Below(placed, j), force) && kept + placed <= more
    ensures Room(v, s, more, force) == {}
  {
    forall d | d in Room(v, s, more, force)
      ensures d in Candidates(v.disks, DisksOn(v, s, kept + Below(placed, j)) + force)
    {}
  }

  lemma RoomNeeded(v: View, hash: Vec -> Checksum, s: StripeId, n: nat, force: set<DiskId>, i: nat)
    ensures FindsRoom(v, hash, s, n, force, i) ==> Room(v, s, KeptShards(v, hash, s, n, force), force) != {}
  {
    hide KeptShards, Room;
  }

  // ---------------------------------------------------------------- when the rows are apart afterwards

  /** No two rows of these shards name the same disk. */
  ghost predicate ApartAmong(v: View, s: StripeId, on: set<nat>) {
    forall i, j :: i in on && j in on && i != j ==> !SharesDisk(v, s, i, j)
  }

  ghost predicate SharesDisk(v: View, s: StripeId, i: nat, j: nat) {
    ShardKey(s, i) in v.shards && ShardKey(s, j) in v.shards && v.shards[ShardKey(s, i)].disk.Some?
    && v.shards[ShardKey(s, i)].disk == v.shards[ShardKey(s, j)].disk
  }
  /** The shards whose rows a repair leaves alone: those kept, and those there is no room for. */
  ghost function Staying(v: View, hash: Vec -> Checksum, s: StripeId, n: nat, force: set<DiskId>): set<nat> {
    set i: nat | i < n && (i in KeptShards(v, hash, s, n, force) || !FindsRoom(v, hash, s, n, force, i))
  }

  /** After a repair the rows are apart if and only if those it left alone were apart before it, and
      none of those that it found no room for names a disk it could have written to. */
  lemma RowsApartExactly(a: View, b: View, hash: Vec -> Checksum, s: StripeId, row: StripeRow, data: Vec, out: Outcome,
                         force: set<DiskId>)
    requires QuietRepair(a, b, hash, s, row, data, out, force)
    ensures var n := row.k + row.m;
            Apart(b, s, n)
            <==> ApartAmong(a, s, Staying(a, hash, s, n, force))
                 && forall j :: j in Staying(a, hash, s, n, force) - KeptShards(a, hash, s, n, force) ==>
                      !Housed(a, a.disks, s, j, force)
  {
    hide *;
    var n := row.k + row.m;
    QuietParts(a, b, hash, s, row, data, out, force);
    StayingIs(a, b, hash, s, row, data, out, force);
    KeptInRange(a, hash, s, n, force);
    ApartIs(b, s, n);
    RowsApart(a, b, s, n, KeptShards(a, hash, s, n, force), out, force);
  }

  /** If the rows of a stripe were apart, they are apart after a repair if and only if there was room for
      each shard that needed writing and whose row names a disk it could be written to. */
  lemma RowsStayApart(a: View, b: View, hash: Vec -> Checksum, s: StripeId, row: StripeRow, data: Vec, out: Outcome,
                      force: set<DiskId>)
    requires QuietRepair(a, b, hash, s, row, data, out, force) && Apart(a, s, row.k + row.m)
    ensures var n := row.k + row.m;
            Apart(b, s, n)
            <==> forall j: nat ::
                   j < n && NeedsWrite(a, hash, s, j, force) && Housed(a, a.disks, s, j, force) ==>
                   FindsRoom(a, hash, s, n, force, j)
  {
    hide *;
    var n := row.k + row.m;
    RowsApartExactly(a, b, hash, s, row, data, out, force);
    ApartIs(a, s, n);
    StayingMeans(a, hash, s, n, force);
    FewerApart(a, s, Range(n), Staying(a, hash, s, n, force));
  }

  lemma StayingMeans(v: View, hash: Vec -> Checksum, s: StripeId, n: nat, force: set<DiskId>)
    ensures Staying(v, hash, s, n, force) <= Range(n)
    ensures (forall j :: j in Staying(v, hash, s, n, force) - KeptShards(v, hash, s, n, force) ==>
               !Housed(v, v.disks, s, j, force))
            <==> forall j: nat ::
                   j < n && NeedsWrite(v, hash, s, j, force) && Housed(v, v.disks, s, j, force) ==>
                   FindsRoom(v, hash, s, n, force, j)
  {
    hide Housed, NeedsWrite, FindsRoom;
    forall j: nat
      ensures j in Staying(v, hash, s, n, force) - KeptShards(v, hash, s, n, force)
              <==> j < n && NeedsWrite(v, hash, s, j, force) && !FindsRoom(v, hash, s, n, force, j)
    {}
    hide Staying, KeptShards;
  }

  lemma FewerApart(v: View, s: StripeId, all: set<nat>, on: set<nat>)
    requires ApartAmong(v, s, all) && on <= all
    ensures ApartAmong(v, s, on)
  {
    hide SharesDisk;
  }

  lemma KeptInRange(v: View, hash: Vec -> Checksum, s: StripeId, n: nat, force: set<DiskId>)
    ensures KeptShards(v, hash, s, n, force) <= Range(n)
  {
    hide NeedsWrite;
  }

  lemma ApartIs(v: View, s: StripeId, n: nat)
    ensures Apart(v, s, n) <==> ApartAmong(v, s, Range(n))
  {
    if Apart(v, s, n) {
      forall i, j | i in Range(n) && j in Range(n) && i != j
        ensures !SharesDisk(v, s, i, j)
      {
        assert i < j || j < i;
      }
    }
    if ApartAmong(v, s, Range(n)) {
      forall i: nat, j: nat | i < j < n && ShardKey(s, i) in v.shards && ShardKey(s, j) in v.shards
                              && v.shards[ShardKey(s, i)].disk.Some?
        ensures v.shards[ShardKey(s, i)].disk != v.shards[ShardKey(s, j)].disk
      {
        assert i in Range(n) && j in Range(n);
        assert !SharesDisk(v, s, i, j);
      }
    }
  }

  lemma StayingIs(a: View, b: View, hash: Vec -> Checksum, s: StripeId, row: StripeRow, data: Vec, out: Outcome,
                  force: set<DiskId>)
    requires QuietRepair(a, b, hash, s, row, data, out, force)
    ensures var n := row.k + row.m;
            Staying(a, hash, s, n, force) == Range(n) - out.placed
            && Staying(a, hash, s, n, force) - KeptShards(a, hash, s, n, force) == out.starved
  {
    hide *;
    var n := row.k + row.m;
    var kept := KeptShards(a, hash, s, n, force);
    QuietParts(a, b, hash, s, row, data, out, force);
    FatesParts(b, a.disks, s, kept, out, Range(n) - kept, force);
    KeptInRange(a, hash, s, n, force);
    forall j: nat | j < n && j !in kept
      ensures j in out.placed <==> FindsRoom(a, hash, s, n, force, j)
    {
      PlacedIfRoom(a, b, hash, s, row, data, out, force, j);
    }
    StayingFrom(a, hash, s, n, force, out.placed, out.starved);
  }

  lemma StayingFrom(v: View, hash: Vec -> Checksum, s: StripeId, n: nat, force: set<DiskId>, placed: set<nat>,
                    starved: set<nat>)
    requires placed !! starved && KeptShards(v, hash, s, n, force) <= Range(n)
    requires placed + starved == Range(n) - KeptShards(v, hash, s, n, force)
    requires forall j: nat :: j < n && j !in KeptShards(v, hash, s, n, force) ==>
               (j in placed <==> FindsRoom(v, hash, s, n, force, j))
    ensures Staying(v, hash, s, n, force) == Range(n) - placed
    ensures Staying(v, hash, s, n, force) - KeptShards(v, hash, s, n, force) == starved
  {
    hide KeptShards, FindsRoom;
  }

  lemma RowsApart(a: View, b: View, s: StripeId, n: nat, kept: set<nat>, out: Outcome, force: set<DiskId>)
    requires Accounted(b, a.disks, s, kept, out, Range(n) - kept, force) && kept <= Range(n)
    requires OnlyMoved(a.shards, b.shards, s, out.placed) && out.placed + out.starved == Range(n) - kept
    requires Worn(a.disks, b.disks) && Faulted(a.disks, b.disks) <= force
    ensures ApartAmong(b, s, Range(n))
            <==> ApartAmong(a, s, Range(n) - out.placed)
                 && forall j :: j in out.starved ==> !Housed(a, a.disks, s, j, force)
  {
    var todo := Range(n) - kept;
    FatesParts(b, a.disks, s, kept, out, todo, force);
    hide Accounted, OnlyMoved, Worn, Faulted, Housed, SharesDisk, NoRoom, Candidates;
    forall i, j | i !in out.placed && j !in out.placed
      ensures SharesDisk(a, s, i, j) <==> SharesDisk(b, s, i, j)
    {
      SharesSame(a, b, s, out.placed, i, j);
    }
    if ApartAmong(b, s, Range(n)) {
      forall j | j in out.starved
        ensures !Housed(a, a.disks, s, j, force)
      {
        if Housed(a, a.disks, s, j, force) {
          var t := StarvedShares(a, b, s, kept, out, todo, force, j);
        }
      }
    }
    if ApartAmong(a, s, Range(n) - out.placed) && forall j :: j in out.starved ==> !Housed(a, a.disks, s, j, force) {
      forall i, j | i in Range(n) && j in Range(n) && i != j
        ensures !SharesDisk(b, s, i, j)
      {
        if SharesDisk(b, s, i, j) && (i in out.placed || j in out.placed) {
          SharesBack(b, s, i, j);
          PlacedShares(a, b, s, kept, out, todo, force, if i in out.placed then i else j,
                       if i in out.placed then j else i);
        }
      }
    }
  }

  lemma SharesBack(v: View, s: StripeId, i: nat, j: nat)
    ensures SharesDisk(v, s, i, j) <==> SharesDisk(v, s, j, i)
  {}

  lemma SharesSame(a: View, b: View, s: StripeId, placed: set<nat>, i: nat, j: nat)
    requires OnlyMoved(a.shards, b.shards, s, placed) && i !in placed && j !in placed
    ensures SharesDisk(a, s, i, j) <==> SharesDisk(b, s, i, j)
  {
    assert ShardKey(s, i) in a.shards <==> ShardKey(s, i) in b.shards;
    assert ShardKey(s, j) in a.shards <==> ShardKey(s, j) in b.shards;
  }

  /** A shard left without a disk, whose row names a writable one, shares it with what took it. */
  lemma StarvedShares(a: View, b: View, s: StripeId, kept: set<nat>, out: Outcome, todo: set<nat>, force: set<DiskId>,
                      j: nat) returns (t: nat)
    requires NoRoom(b, s, kept + Below(out.placed, j), force) && out.placed <= todo && todo !! kept
    requires OnlyMoved(a.shards, b.shards, s, out.placed) && j in todo && j !in out.placed
    requires Worn(a.disks, b.disks) && Faulted(a.disks, b.disks) <= force && Housed(a, a.disks, s, j, force)
    ensures t != j && (t in kept || t in todo) && SharesDisk(b, s, t, j)
  {
    var d := a.shards[ShardKey(s, j)].disk.value;
    SameCandidates(a.disks, b.disks, {}, force);
    assert {} + force == force;
    hide Worn, Faulted;
    assert d in Candidates(b.disks, force) && d !in Candidates(b.disks, DisksOn(b, s, kept + Below(out.placed, j))
                                                                        + force);
    assert ShardKey(s, j) in b.shards && b.shards[ShardKey(s, j)].disk == Some(d);
    t :| t in kept + Below(out.placed, j) && ShardKey(s, t) in b.shards && b.shards[ShardKey(s, t)].disk == Some(d);
  }

  /** What shares a disk with a placed shard was left without one, and names a disk that could be written. */
  lemma PlacedShares(a: View, b: View, s: StripeId, kept: set<nat>, out: Outcome, todo: set<nat>, force: set<DiskId>,
                     i: nat, j: nat)
    requires Accounted(b, a.disks, s, kept, out, todo, force) && OnlyMoved(a.shards, b.shards, s, out.placed)
    requires i in out.placed && i != j && (j in kept || j in out.placed || j in out.starved) && SharesDisk(b, s, i, j)
    ensures j in out.starved && Housed(a, a.disks, s, j, force)
  {
    hide Candidates, NoRoom, Alone;
    assert Housed(b, a.disks, s, i, force);
    AloneShares(b, s, kept, out.placed, i, j);
  }

  lemma AloneShares(v: View, s: StripeId, kept: set<nat>, placed: set<nat>, i: nat, j: nat)
    requires Alone(v, s, kept, placed) && i in placed && i != j && SharesDisk(v, s, i, j)
    ensures j !in kept && j !in placed
  {
    SharedDisk(v, s, i, j);
    assert v.shards[ShardKey(s, i)].disk.value in DisksOn(v, s, placed);
    hide DisksOn;
  }

  lemma SharedDisk(v: View, s: StripeId, i: nat, j: nat)
    requires SharesDisk(v, s, i, j)
    ensures forall on :: j in on ==> v.shards[ShardKey(s, i)].disk.value in DisksOn(v, s, on)
  {}

  // ---------------------------------------------------------------- a shard left without a disk

  /** Two shards i < j need writing, and the only free disk is the one that j's row names: shard i goes
      there, and j's row goes on naming it. */
  lemma UnplacedSharesDisk(a: View, b: View, hash: Vec -> Checksum, s: StripeId, row: StripeRow, data: Vec,
                           out: Outcome, force: set<DiskId>, i: nat, j: nat, d: DiskId)
    requires QuietRepair(a, b, hash, s, row, data, out, force)
    requires i < j && ShardKey(s, j) in a.shards && a.shards[ShardKey(s, j)].disk == Some(d)
    requires var kept := KeptShards(a, hash, s, row.k + row.m, force);
             Range(row.k + row.m) - kept == {i, j} && Room(a, s, kept, force) == {d}
    ensures i in out.placed && j !in out.placed
    ensures ShardKey(s, i) in b.shards && b.shards[ShardKey(s, i)].disk == Some(d)
    ensures ShardKey(s, j) in b.shards && b.shards[ShardKey(s, j)].disk == Some(d)
  {
    hide *;
    var kept := KeptShards(a, hash, s, row.k + row.m, force);
    QuietParts(a, b, hash, s, row, data, out, force);
    PlacedExactly(a, b, s, kept, out, {i, j}, force, i);
    PlacedExactly(a, b, s, kept, out, {i, j}, force, j);
    BelowTwo(i, j);
    PlacedInRoom(a, b, s, kept, out, {i, j}, force, i);
    RowUnmoved(a, b, s, out.placed, j);
  }

  lemma BelowTwo(i: nat, j: nat)
    requires i < j
    ensures Below({i, j}, i) == {} && Below({i, j}, j) == {i}
  {}

  lemma RowUnmoved(a: View, b: View, s: StripeId, placed: set<nat>, j: nat)
    requires OnlyMoved(a.shards, b.shards, s, placed) && j !in placed && ShardKey(s, j) in a.shards
    ensures ShardKey(s, j) in b.shards && b.shards[ShardKey(s, j)].disk == a.shards[ShardKey(s, j)].disk
  {}

  /** Such a stripe: three copies, of which the second is lost on a degraded disk and the third on a
      disk that can be written. */
  function Example(hash: Vec -> Checksum): (v: View) {
    var header := ShardHeader(0, 1, 2, 7, 0, hash([]), 0, 0, 0, "key");
    View(map[0 := Disk(Online, 0, 0), 1 := Disk(Degraded, 0, 0), 2 := Disk(Online, 0, 0)],
         map[Path(0, 7, 0) := File(Some(header), [])],
         map[ShardKey(7, 0) := ShardRow(Some(0), Some(hash([])), Fine),
             ShardKey(7, 1) := ShardRow(Some(1), Some(hash([])), Fine),
             ShardKey(7, 2) := ShardRow(Some(2), Some(hash([])), Fine)])
  }

  lemma ExampleReads(hash: Vec -> Checksum)
    ensures var v := Example(hash); v.Read(hash, 7, 0).Some? && v.Read(hash, 7, 1).None? && v.Read(hash, 7, 2).None?
  {
    var v := Example(hash);
    assert ReadShard(v.files, hash, Path(0, 7, 0), Some(hash([]))) == Payload([]);
    assert ReadShard(v.files, hash, Path(1, 7, 1), Some(hash([]))) == IsMissing;
    assert ReadShard(v.files, hash, Path(2, 7, 2), Some(hash([]))) == IsMissing;
  }

  lemma ExampleShares(hash: Vec -> Checksum)
    ensures var v := Example(hash); var kept := KeptShards(v, hash, 7, 3, {});
            kept == {0} && Range(3) - kept == {1, 2} && Room(v, 7, kept, {}) == {2}
            && ShardKey(7, 2) in v.shards && v.shards[ShardKey(7, 2)].disk == Some(2)
    ensures var v := Example(hash);
            Apart(v, 7, 3) && Housed(v, v.disks, 7, 2, {}) && !FindsRoom(v, hash, 7, 3, {}, 2)
  {
    var v := Example(hash);
    ExampleReads(hash);
    hide View.Read;
    var kept := KeptShards(v, hash, 7, 3, {});
    assert Range(3) == {0, 1, 2};
    assert kept == {0};
    assert DisksOn(v, 7, kept) == {0};
    assert Room(v, 7, kept, {}) == {2};
    BelowTwo(1, 2);
  }

  /** So its rows were on different disks, and are not after any repair without disk errors. */
  lemma ExampleEndsShared(hash: Vec -> Checksum, b: View, row: StripeRow, data: Vec, out: Outcome)
    requires QuietRepair(Example(hash), b, hash, 7, row, data, out, {}) && row.k + row.m == 3
    ensures Apart(Example(hash), 7, 3) && !Apart(b, 7, 3)
  {
    ExampleShares(hash);
    RowsStayApart(Example(hash), b, hash, 7, row, data, out, {});
    var v := Example(hash);
    ExampleReads(hash);
    hide QuietRepair, Apart, Housed, FindsRoom, View.Read;
    assert NeedsWrite(v, hash, 7, 2, {});
  }
}
