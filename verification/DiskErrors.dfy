/** The error counters of disks: what a failed write leaves behind, and when too few shards land. */
module DiskErrors {
  import opened Wrappers
  import opened StoreTypes
  import opened StoreViews
  import opened Placement

  /** One more error; past the threshold an online disk becomes degraded. */
  function Reported(disks: map<DiskId, Disk>, d: DiskId, threshold: nat): (r: map<DiskId, Disk>)
    requires d in disks
    ensures Worn(disks, r) && Faulted(disks, r) == {d} && r[d].errors == disks[d].errors + 1
  {
    var disk := disks[d].(errors := disks[d].errors + 1);
    disks[d := if disk.status.Online? && disk.errors >= threshold then disk.(status := Degraded) else disk]
  }

  /** After n errors in a row. */
  ghost function ReportedTimes(disks: map<DiskId, Disk>, d: DiskId, threshold: nat, n: nat): (r: map<DiskId, Disk>)
    requires d in disks
    ensures d in r
  {
    if n == 0 then disks else Reported(ReportedTimes(disks, d, threshold, n - 1), d, threshold)
  }

  /** The row of a disk after n errors in a row. */
  ghost function WornRow(disk: Disk, threshold: nat, n: nat): Disk {
    Disk(if disk.status.Online? && n > 0 && disk.errors + n >= threshold then Degraded else disk.status,
         disk.errors + n,
         disk.free)
  }

  /** An online disk becomes degraded with the error that brings its counter to the threshold, or the next one if it
      was there already, and not before; no other status and no other disk changes. */
  lemma {:induction false} DegradesAt(disks: map<DiskId, Disk>, d: DiskId, threshold: nat, n: nat)
    requires d in disks
    ensures ReportedTimes(disks, d, threshold, n) == disks[d := WornRow(disks[d], threshold, n)]
  {
    hide *;
    if n > 0 {
      DegradesAt(disks, d, threshold, n - 1);
      var row := WornRow(disks[d], threshold, n - 1);
      OneReport(disks, d, threshold, n - 1);
      ReportedRow(disks[d := row], d, threshold);
      WornNext(disks[d], threshold, n - 1);
      assert disks[d := row][d] == row;
      PutTwice(disks, d, row, WornRow(row, threshold, 1));
    } else {
      NoneYet(disks, d, threshold);
    }
  }

  lemma NoneYet(disks: map<DiskId, Disk>, d: DiskId, threshold: nat)
    requires d in disks
    ensures ReportedTimes(disks, d, threshold, 0) == disks[d := WornRow(disks[d], threshold, 0)]
  {
    assert WornRow(disks[d], threshold, 0) == disks[d];
    hide WornRow;
  }

  lemma OneReport(disks: map<DiskId, Disk>, d: DiskId, threshold: nat, n: nat)
    requires d in disks
    ensures ReportedTimes(disks, d, threshold, n + 1)
            == Reported(ReportedTimes(disks, d, threshold, n), d, threshold)
  {
    hide Reported, Worn, Faulted;
  }

  lemma PutTwice(disks: map<DiskId, Disk>, d: DiskId, x: Disk, y: Disk)
    ensures disks[d := x][d := y] == disks[d := y]
  {}

  lemma ReportedRow(disks: map<DiskId, Disk>, d: DiskId, threshold: nat)
    requires d in disks
    ensures Reported(disks, d, threshold) == disks[d := WornRow(disks[d], threshold, 1)]
  {}

  lemma WornNext(disk: Disk, threshold: nat, n: nat)
    ensures WornRow(WornRow(disk, threshold, n), threshold, 1) == WornRow(disk, threshold, n + 1)
  {}

  lemma FewerCandidates(a: map<DiskId, Disk>, b: map<DiskId, Disk>, exclude: set<DiskId>, more: set<DiskId>)
    requires Worn(a, b) && exclude <= more
    ensures Candidates(b, more) <= Candidates(a, exclude)
  {}

  // ---------------------------------------------------------------- shards that land

  /** The slots that have a disk. */
  ghost function Slots(at: seq<Option<DiskId>>): set<nat> {
    set i: nat | i < |at| && at[i].Some?
  }

  ghost function DisksAt(at: seq<Option<DiskId>>, on: set<nat>): set<DiskId> {
    set i | i in on && i < |at| && at[i].Some? :: at[i].value
  }

  lemma {:induction false} DisksAtSize(at: seq<Option<DiskId>>, on: set<nat>)
    requires DistinctSlots(at) && on <= Slots(at)
    ensures |DisksAt(at, on)| == |on|
    decreases |on|
  {
    if on != {} {
      var i :| i in on;
      DisksAtSize(at, on - {i});
      assert DisksAt(at, on) == DisksAt(at, on - {i}) + {at[i].value};
      forall j | j in on - {i}
        ensures at[j] != at[i]
      {
        assert if i < j then at[i] != at[j] else at[j] != at[i];
      }
      assert at[i].value !in DisksAt(at, on - {i});
    }
  }

  /** The slots that have a disk, among the first n. */
  ghost function Tried(at: seq<Option<DiskId>>, n: nat): set<nat> {
    set i: nat | i < n && i < |at| && at[i].Some?
  }

  lemma NothingTried(at: seq<Option<DiskId>>)
    ensures DisksAt(at, Tried(at, 0) - {}) == {}
  {}

  lemma TriedNext(at: seq<Option<DiskId>>, landed: set<nat>, i: nat, ok: bool)
    requires i < |at| && (forall j :: j in landed ==> j < i) && (ok ==> at[i].Some?)
    ensures DisksAt(at, Tried(at, i + 1) - (if ok then landed + {i} else landed))
            == DisksAt(at, Tried(at, i) - landed) + (if at[i].Some? && !ok then {at[i].value} else {})
  {
    var more := if ok then landed + {i} else landed;
    assert Tried(at, i + 1) - more == (Tried(at, i) - landed) + (if at[i].Some? && !ok then {i} else {});
  }

  lemma TriedAll(at: seq<Option<DiskId>>)
    ensures Tried(at, |at|) == Slots(at)
  {}

  lemma FaultsTried(at: seq<Option<DiskId>>, landed: set<nat>, i: nat)
    ensures DisksAt(at, Tried(at, i) - landed) <= DisksAt(at, Slots(at))
  {}

  lemma LandedSlots(at: seq<Option<DiskId>>, landed: set<nat>)
    requires forall i :: i in landed ==> i < |at| && at[i].Some?
    ensures landed <= Slots(at)
  {}

  /** As many slots have disks as there are candidates, up to one for each shard. */
  lemma PlacedSize(at: seq<Option<DiskId>>, disks: map<DiskId, Disk>, n: nat)
    requires Placed(at, disks, n, {})
    ensures |Slots(at)| == Min(n, |Candidates(disks, {})|) && DisksAt(at, Slots(at)) <= Candidates(disks, {})
  {
    var all, cands := DisksAt(at, Slots(at)), Candidates(disks, {});
    DisksAtSize(at, Slots(at));
    forall d | d in all
      ensures Some(d) in at
    {}
    SubsetSize(all, cands);
    if None in at {
      assert all == cands;
      SlotsSize(at, n);
    } else {
      assert Slots(at) == Range(n);
    }
  }

  lemma SlotsSize(at: seq<Option<DiskId>>, n: nat)
    requires |at| == n
    ensures |Slots(at)| <= n
  {
    SubsetSize(Slots(at), Range(n));
  }

  /** Every shard that was tried landed or made its disk report an error. */
  lemma LandedOrFaulted(at: seq<Option<DiskId>>, landed: set<nat>, faulted: set<DiskId>)
    requires DistinctSlots(at) && landed <= Slots(at) && faulted == DisksAt(at, Slots(at) - landed)
    ensures |landed| + |faulted| == |Slots(at)|
  {
    DisksAtSize(at, Slots(at) - landed);
    assert Slots(at) == landed + (Slots(at) - landed);
  }

  /** Fewer than need of n shards land on the writable disks that report no error. */
  ghost predicate Shortfall(a: map<DiskId, Disk>, b: map<DiskId, Disk>, n: nat, need: nat) {
    Min(n, |Candidates(a, {})|) < need + |Faulted(a, b) * Candidates(a, {})|
  }

  lemma ShortfallIs(a: map<DiskId, Disk>, b: map<DiskId, Disk>, n: nat, need: nat)
    requires Faulted(a, b) <= Candidates(a, {})
    ensures Shortfall(a, b, n, need) <==> Min(n, |Candidates(a, {})|) < need + |Faulted(a, b)|
  {
    assert Faulted(a, b) * Candidates(a, {}) == Faulted(a, b);
  }

  /** A shortfall in the last stripe is one from the start: a disk that is no candidate any more has reported errors. */
  lemma ShortfallEarlier(a: map<DiskId, Disk>, m: map<DiskId, Disk>, b: map<DiskId, Disk>, n: nat, need: nat)
    requires Worn(a, m) && Worn(m, b) && Shortfall(m, b, n, need)
    ensures Shortfall(a, b, n, need)
  {
    var gone, hit := Candidates(a, {}) - Candidates(m, {}), Faulted(m, b) * Candidates(m, {});
    WornTrans(a, m, b);
    FewerCandidates(a, m, {}, {});
    assert gone <= Faulted(a, m);
    assert gone !! hit;
    SubsetSize(gone + hit, Faulted(a, b) * Candidates(a, {}));
    UnionSize(Candidates(a, {}), Candidates(m, {}), gone);
    assert |gone + hit| == |gone| + |hit|;
  }
}
