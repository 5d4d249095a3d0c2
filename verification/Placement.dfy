/** Choosing the disks of a stripe. */
module Placement {
  import opened Wrappers
  import opened StoreTypes
  import opened Extremes

  /** A stripe id has 32 hexadecimal digits; the first eight choose the rotation. */
  const LOW_DIGITS: nat := 0x1_00000000_00000000_00000000

  function Candidates(disks: map<DiskId, Disk>, exclude: set<DiskId>): set<DiskId> {
    set d | d in disks && Writable(disks[d].status) && d !in exclude
  }

  /** Disk a comes before b: more free space, or as much and a smaller id. */
  predicate Before(disks: map<DiskId, Disk>, a: DiskId, b: DiskId)
    requires a in disks && b in disks
  {
    disks[a].free > disks[b].free || (disks[a].free == disks[b].free && a <= b)
  }

  method First(disks: map<DiskId, Disk>, cands: set<DiskId>) returns (d: DiskId)
    requires cands != {} && cands <= disks.Keys
    ensures d in cands && forall c :: c in cands ==> Before(disks, d, c)
  {
    d :| d in cands;
    var rest := cands - {d};
    while rest != {}
      invariant rest <= cands && d in cands
      invariant forall c :: c in cands && c !in rest ==> Before(disks, d, c)
      decreases rest
    {
      var c :| c in rest;
      if Before(disks, c, d) {
        d := c;
      }
      rest := rest - {c};
    }
  }

  /** The first n candidates by free space. */
  method Choose(disks: map<DiskId, Disk>, cands: set<DiskId>, n: nat) returns (chosen: set<DiskId>)
    requires cands <= disks.Keys
    ensures chosen <= cands && |chosen| <= n && (|chosen| < n ==> chosen == cands)
    ensures forall d, c :: d in chosen && c in cands - chosen ==> Before(disks, d, c)
  {
    chosen := {};
    var rest := cands;
    while |chosen| < n && rest != {}
      invariant rest == cands - chosen && chosen <= cands && |chosen| <= n
      invariant forall d, c :: d in chosen && c in rest ==> Before(disks, d, c)
      decreases rest
    {
      var d := First(disks, rest);
      chosen := chosen + {d};
      rest := rest - {d};
    }
  }

  ghost predicate Ascending(ids: seq<DiskId>) {
    forall i, j :: 0 <= i < j < |ids| ==> ids[i] < ids[j]
  }

  method ById(chosen: set<DiskId>) returns (ids: seq<DiskId>)
    ensures Ascending(ids) && |ids| == |chosen| && forall d :: d in ids <==> d in chosen
  {
    ids := [];
    var rest := chosen;
    while rest != {}
      invariant rest <= chosen && |ids| + |rest| == |chosen| && Ascending(ids)
      invariant forall d :: d in ids <==> d in chosen && d !in rest
      invariant forall i, c :: 0 <= i < |ids| && c in rest ==> ids[i] < c
      decreases rest
    {
      var d := Least(rest);
      ids := ids + [d];
      rest := rest - {d};
    }
  }

  // ---------------------------------------------------------------- slots

  function Filled(ids: seq<DiskId>, n: nat): (r: seq<Option<DiskId>>)
    requires |ids| <= n
    ensures |r| == n
  {
    seq(n, i requires 0 <= i < n => if i < |ids| then Some(ids[i]) else None)
  }

  function Turned(i: nat, rot: nat, n: nat): (j: nat)
    requires n > 0
    ensures j < n
  {
    (i + rot) % n
  }

  function Rotated<T>(slots: seq<T>, rot: nat): (r: seq<T>)
    ensures |r| == |slots|
  {
    seq(|slots|, i requires 0 <= i < |slots| => slots[Turned(i, rot, |slots|)])
  }

  /** Slot i has the disk i + rot places down the list, counting on from its start past slot n - 1; the slots that
      would be further down than the list is long are empty. */
  ghost predicate TurnedBy(ids: seq<DiskId>, slots: seq<Option<DiskId>>, n: nat, rot: nat) {
    |slots| == n && forall i :: 0 <= i < n ==> slots[i] == At(ids, if i + rot < n then i + rot else i + rot - n)
  }

  /** The disks of the slots, in ascending order, are turned by what the stripe id says. */
  ghost predicate TurnedFor(slots: seq<Option<DiskId>>, n: nat, s: StripeId) {
    n > 0 && exists ids :: Ascending(ids) && |ids| <= n && TurnedBy(ids, slots, n, s / LOW_DIGITS % n)
  }

  ghost function At(ids: seq<DiskId>, j: int): Option<DiskId> {
    if 0 <= j < |ids| then Some(ids[j]) else None
  }

  lemma RotatedTurned(ids: seq<DiskId>, n: nat, rot: nat)
    requires |ids| <= n && rot < n
    ensures TurnedBy(ids, Rotated(Filled(ids, n), rot), n, rot)
  {
    hide Turned;
    forall i | 0 <= i < n
      ensures Rotated(Filled(ids, n), rot)[i] == At(ids, if i + rot < n then i + rot else i + rot - n)
    {
      TurnedCases(i, rot, n);
    }
  }

  lemma TurnedCases(i: nat, rot: nat, n: nat)
    requires i < n && rot < n
    ensures Turned(i, rot, n) == if i + rot < n then i + rot else i + rot - n
  {}

  /** Turning is a bijection on the slots. */
  lemma TurnedOnce(i: nat, j: nat, rot: nat, n: nat)
    requires i < j < n && rot < n
    ensures Turned(i, rot, n) != Turned(j, rot, n)
  {
    hide Turned;
    TurnedCases(i, rot, n);
    TurnedCases(j, rot, n);
  }

  lemma TurnedOnto(j: nat, rot: nat, n: nat) returns (i: nat)
    requires rot < n && j < n
    ensures i < n && Turned(i, rot, n) == j
  {
    i := if j >= rot then j - rot else j + n - rot;
    TurnedCases(i, rot, n);
  }

  /** Rotation moves every disk somewhere and merges none. */
  lemma RotatedKeeps(ids: seq<DiskId>, n: nat, rot: nat)
    requires |ids| <= n && rot < n
    ensures forall d :: Some(d) in Rotated(Filled(ids, n), rot) <==> d in ids
  {
    hide Turned;
    var r := Rotated(Filled(ids, n), rot);
    forall d | d in ids
      ensures Some(d) in r
    {
      var j :| 0 <= j < |ids| && ids[j] == d;
      var i := TurnedOnto(j, rot, n);
      assert r[i] == Some(d);
    }
  }

  lemma RotatedDistinct(ids: seq<DiskId>, n: nat, rot: nat)
    requires Ascending(ids) && |ids| <= n && rot < n
    ensures DistinctSlots(Rotated(Filled(ids, n), rot))
  {
    hide Turned;
    var r := Rotated(Filled(ids, n), rot);
    forall i: nat, j: nat | i < j < n && r[i].Some? && r[j].Some?
      ensures r[i] != r[j]
    {
      TurnedOnce(i, j, rot, n);
    }
  }

  lemma RotatedFull(ids: seq<DiskId>, rot: nat)
    requires ids != []
    ensures None !in Rotated(Filled(ids, |ids|), rot)
  {}

  ghost predicate DistinctSlots(slots: seq<Option<DiskId>>) {
    forall i, j :: 0 <= i < j < |slots| && slots[i].Some? && slots[j].Some? ==> slots[i] != slots[j]
  }

  /** Placed on distinct writable disks outside exclude; a slot stays empty only when every
      such disk has a shard; a disk left out has no more free space than one that is used. */
  ghost predicate Placed(slots: seq<Option<DiskId>>, disks: map<DiskId, Disk>, n: nat, exclude: set<DiskId>) {
    |slots| == n && DistinctSlots(slots)
    && (forall d :: Some(d) in slots ==> d in Candidates(disks, exclude))
    && (forall d :: None in slots && d in Candidates(disks, exclude) ==> Some(d) in slots)
    && (forall d, c :: Some(d) in slots && c in Candidates(disks, exclude) && Some(c) !in slots ==>
          d in disks && c in disks && Before(disks, d, c))
  }

  /** Pick n distinct writable disks, most free space first, and rotate the shards over them. */
  method Place(disks: map<DiskId, Disk>, n: nat, s: StripeId, exclude: set<DiskId>) returns (slots: seq<Option<DiskId>>)
    requires n > 0
    ensures Placed(slots, disks, n, exclude)
    ensures TurnedFor(slots, n, s)
  {
    hide Rotated, Turned, Filled;
    var cands := Candidates(disks, exclude);
    var chosen := Choose(disks, cands, n);
    var ids := ById(chosen);
    var rot := s / LOW_DIGITS % n;
    slots := Rotated(Filled(ids, n), rot);
    RotatedKeeps(ids, n, rot);
    RotatedDistinct(ids, n, rot);
    RotatedTurned(ids, n, rot);
    if |ids| == n {
      RotatedFull(ids, rot);
    }
  }
}
