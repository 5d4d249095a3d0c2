/** One scrub pass over the store. */
module Scrub {
  import opened Wrappers
  import opened LinearAlgebra
  import opened StoreTypes
  import opened StoreState
  import opened StoreViews
  import opened StoreReading
  import opened StoreRepairing
  import opened ObjectStore
  import opened Sequences

  const BATCH := 200
  const FIRST_REPAIRS := 10000

  datatype ScrubStatus = Completed | Aborted
  datatype Stats = Stats(checked: nat, verified: nat, corrupt: nat, missing: nat, repaired: nat, unrecoverable: nat)

  /** Visible stripes that were last verified before the cutoff. */
  function Stale(stripes: map<StripeId, StripeRow>, cutoff: int): set<StripeId> {
    set s | s in stripes && !stripes[s].state.Pending? && stripes[s].scrubbed < cutoff
  }

  /** A committed stripe with a shard row that is not healthy. */
  ghost predicate IsDamaged(stripes: map<StripeId, StripeRow>, shards: map<ShardKey, ShardRow>, s: StripeId) {
    s in stripes && stripes[s].state.Committed?
    && exists i: nat :: ShardKey(s, i) in shards && shards[ShardKey(s, i)].state != Fine
  }

  function Damaged(stripes: map<StripeId, StripeRow>, shards: map<ShardKey, ShardRow>): (r: set<StripeId>)
    ensures forall s :: s in r <==> IsDamaged(stripes, shards, s)
  {
    var r := set key | key in shards && shards[key].state != Fine && key.stripe in stripes
                       && stripes[key.stripe].state.Committed? :: key.stripe;
    DamagedAre(stripes, shards, r);
    r
  }

  lemma DamagedAre(stripes: map<StripeId, StripeRow>, shards: map<ShardKey, ShardRow>, r: set<StripeId>)
    requires r == set key | key in shards && shards[key].state != Fine && key.stripe in stripes
                            && stripes[key.stripe].state.Committed? :: key.stripe
    ensures forall s :: s in r <==> IsDamaged(stripes, shards, s)
  {
    forall s | s in r
      ensures IsDamaged(stripes, shards, s)
    {
      var key :| key in shards && shards[key].state != Fine && key.stripe == s;
      assert ShardKey(s, key.idx) == key;
    }
  }

  /** A pass checks damaged and stale stripes only, and past its limit only damaged ones. */
  ghost predicate Due(start: State, cutoff: int, limit: Option<nat>, checked: set<StripeId>) {
    forall s :: s in checked ==>
      IsDamaged(start.stripes, start.shards, s)
      || (s in Stale(start.stripes, cutoff) && (limit.Some? ==> |checked| <= limit.value))
  }

  /** These are damaged stripes, and all there are if there are fewer than a pass takes first. */
  ghost predicate Foremost(stripes: map<StripeId, StripeRow>, shards: map<ShardKey, ShardRow>, first: set<StripeId>) {
    (forall s :: s in first ==> IsDamaged(stripes, shards, s))
    && (|first| < FIRST_REPAIRS ==> forall s :: IsDamaged(stripes, shards, s) ==> s in first)
  }

  lemma ForemostOf(stripes: map<StripeId, StripeRow>, shards: map<ShardKey, ShardRow>, first: set<StripeId>)
    requires first <= Damaged(stripes, shards) && (|first| < FIRST_REPAIRS ==> first == Damaged(stripes, shards))
    ensures Foremost(stripes, shards, first)
  {
    hide IsDamaged, Damaged;
  }

  lemma DueFirst(start: State, cutoff: int, limit: Option<nat>, first: set<StripeId>, checked: set<StripeId>)
    requires Foremost(start.stripes, start.shards, first) && checked <= first
    ensures Due(start, cutoff, limit, checked)
    ensures forall s :: s in first ==> s in start.stripes && !start.stripes[s].state.Pending?
  {}

  lemma FirstChecked(start: State, first: set<StripeId>, checked: set<StripeId>)
    requires Foremost(start.stripes, start.shards, first) && first <= checked && |checked| < FIRST_REPAIRS
    ensures forall s :: IsDamaged(start.stripes, start.shards, s) ==> s in checked
  {
    SubsetSize(first, checked);
    hide IsDamaged;
  }

  lemma DueNext(start: State, cutoff: int, limit: Option<nat>, checked: set<StripeId>, s: StripeId)
    requires Due(start, cutoff, limit, checked) && s in Stale(start.stripes, cutoff) && s !in checked
    requires limit.Some? ==> |checked| < limit.value
    ensures Due(start, cutoff, limit, checked + {s})
  {
    hide IsDamaged, Stale;
    assert |checked + {s}| == |checked| + 1;
  }

  /** The number of shards of a stripe that verify. */
  ghost function Verifying(v: View, hash: Vec -> Checksum, s: StripeId, row: StripeRow): nat {
    |v.Good(hash, s, row.k + row.m)|
  }

  /** A stripe is flagged unrecoverable exactly when fewer than k of its shards verify. */
  ghost predicate FlagExact(st: State, v: View, hash: Vec -> Checksum, s: StripeId) {
    s in st.stripes && !st.stripes[s].state.Pending?
    && var row := st.stripes[s];
    (row.state.Unrecoverable? <==> Verifying(v, hash, s, row) < row.k)
  }

  /** Between two moments of a pass: nothing visible changes, no shard is lost, and the stripes
      checked so far are stamped and flagged exactly. */
  ghost predicate Scrubbed(a: State, v: View, b: State, w: View, hash: Vec -> Checksum, checked: set<StripeId>,
                           since: nat) {
    SameVisible(a, b) && AllReadsKept(v, w, hash)
    && (forall s :: s in a.stripes <==> s in b.stripes)
    && (forall s :: s in a.stripes && s !in checked ==> b.stripes[s] == a.stripes[s])
    && (forall s :: s in a.stripes && a.stripes[s].state.Pending? ==> b.stripes[s].state.Pending?)
    && (forall s :: s in checked ==> FlagExact(b, w, hash, s) && b.stripes[s].scrubbed >= since)
  }

  lemma ScrubbedStart(st: State, v: View, hash: Vec -> Checksum, since: nat)
    ensures Scrubbed(st, v, st, v, hash, {}, since)
  {
    hide View.Read, Holds;
  }

  /** Stripe s was verified at this time and flagged accordingly. */
  ghost predicate Checked(b: State, w: View, c: State, x: View, hash: Vec -> Checksum, s: StripeId, data: Vec,
                          placed: set<nat>, bad: bool, time: nat)
  {
    s in b.stripes && !b.stripes[s].state.Pending?
    && var row := b.stripes[s];
    Repaired(w, x, hash, s, row, data, placed, {})
    && (bad <==> Verifying(w, hash, s, row) < row.k) && (bad ==> SameReads(w, x, hash))
    && c.stripes == b.stripes[s := row.(state := if bad then Unrecoverable else Committed, scrubbed := time)]
  }

  lemma CheckedFlag(b: State, w: View, c: State, x: View, hash: Vec -> Checksum, s: StripeId, data: Vec,
                    placed: set<nat>, bad: bool, time: nat)
    requires Checked(b, w, c, x, hash, s, data, placed, bad, time)
    ensures FlagExact(c, x, hash, s) && c.stripes[s].scrubbed == time
  {
    hide Verifying, Repaired, SameReads, View.Read;
    var row, after := b.stripes[s], c.stripes[s];
    CheckedReads(b, w, c, x, hash, s, data, placed, bad, time);
    VerifyingGrows(w, x, hash, s, row, after);
    if bad {
      VerifyingSame(w, x, hash, s, row, after);
    }
  }

  lemma VerifyingGrows(a: View, b: View, hash: Vec -> Checksum, s: StripeId, row: StripeRow, after: StripeRow)
    requires AllReadsKept(a, b, hash) && after.k == row.k && after.m == row.m
    ensures Verifying(a, hash, s, row) <= Verifying(b, hash, s, after)
  {
    hide View.Read;
    var n := row.k + row.m;
    GoodSubset(a, b, hash, s, n);
    hide View.Good, AllReadsKept;
    SubsetSize(a.Good(hash, s, n).Keys, b.Good(hash, s, n).Keys);
    assert |a.Good(hash, s, n).Keys| == |a.Good(hash, s, n)| && |b.Good(hash, s, n).Keys| == |b.Good(hash, s, n)|;
  }

  lemma GoodSubset(a: View, b: View, hash: Vec -> Checksum, s: StripeId, n: nat)
    requires AllReadsKept(a, b, hash)
    ensures a.Good(hash, s, n).Keys <= b.Good(hash, s, n).Keys
  {
    hide View.Read;
  }

  lemma VerifyingSame(a: View, b: View, hash: Vec -> Checksum, s: StripeId, row: StripeRow, after: StripeRow)
    requires (SameReads(a, b, hash) || forall i: nat :: b.Read(hash, s, i) == a.Read(hash, s, i))
    requires after.k == row.k && after.m == row.m
    ensures Verifying(a, hash, s, row) == Verifying(b, hash, s, after)
  {
    hide View.Read;
    assert b.Good(hash, s, row.k + row.m) == a.Good(hash, s, row.k + row.m);
  }

  lemma OtherFlag(b: State, w: View, c: State, x: View, hash: Vec -> Checksum, s: StripeId, data: Vec,
                  placed: set<nat>, bad: bool, time: nat, t: StripeId)
    requires Checked(b, w, c, x, hash, s, data, placed, bad, time) && t != s && FlagExact(b, w, hash, t)
    ensures FlagExact(c, x, hash, t) && c.stripes[t] == b.stripes[t]
  {
    hide Verifying, Repaired, SameReads, View.Read;
    CheckedReads(b, w, c, x, hash, s, data, placed, bad, time);
    VerifyingSame(w, x, hash, t, b.stripes[t], b.stripes[t]);
  }

  lemma CheckedReads(b: State, w: View, c: State, x: View, hash: Vec -> Checksum, s: StripeId, data: Vec,
                     placed: set<nat>, bad: bool, time: nat)
    requires Checked(b, w, c, x, hash, s, data, placed, bad, time)
    ensures AllReadsKept(w, x, hash)
    ensures s in b.stripes && !b.stripes[s].state.Pending? && c.stripes.Keys == b.stripes.Keys
    ensures forall t :: t in b.stripes && t != s ==> c.stripes[t] == b.stripes[t]
    ensures forall t: StripeId, i: nat :: t != s ==> x.Read(hash, t, i) == w.Read(hash, t, i)
  {
    hide Verifying;
    RepairedReads(w, x, hash, s, b.stripes[s], data, placed);
    hide Repaired, SameReads, View.Read;
  }

  lemma ReadsKeptTrans(a: View, b: View, c: View, hash: Vec -> Checksum)
    requires AllReadsKept(a, b, hash) && AllReadsKept(b, c, hash)
    ensures AllReadsKept(a, c, hash)
  {
    hide View.Read;
  }

  /** One more stripe was verified at a later time. */
  lemma ScrubbedNext(a: State, v: View, b: State, w: View, c: State, x: View, hash: Vec -> Checksum,
                     checked: set<StripeId>, since: nat, s: StripeId, data: Vec, placed: set<nat>, bad: bool, time: nat)
    requires Scrubbed(a, v, b, w, hash, checked, since) && SameVisible(b, c) && time >= since
    requires Checked(b, w, c, x, hash, s, data, placed, bad, time)
    ensures Scrubbed(a, v, c, x, hash, checked + {s}, since)
  {
    hide Checked, SameVisible, AllReadsKept, FlagExact, View.Read;
    SameVisibleTrans(a, b, c);
    CheckedReads(b, w, c, x, hash, s, data, placed, bad, time);
    ReadsKeptTrans(v, w, x, hash);
    CheckedFlag(b, w, c, x, hash, s, data, placed, bad, time);
    FlagListed(b, w, hash, checked);
    forall t | t in checked && t != s
      ensures FlagExact(c, x, hash, t) && t in b.stripes && c.stripes[t] == b.stripes[t]
    {
      OtherFlag(b, w, c, x, hash, s, data, placed, bad, time, t);
    }
  }

  lemma FlagListed(st: State, v: View, hash: Vec -> Checksum, checked: set<StripeId>)
    ensures forall t :: t in checked && FlagExact(st, v, hash, t) ==> t in st.stripes
  {
    hide View.Read;
  }

  lemma RepairedReads(a: View, b: View, hash: Vec -> Checksum, s: StripeId, row: StripeRow, data: Vec, placed: set<nat>)
    requires Repaired(a, b, hash, s, row, data, placed, {})
    ensures AllReadsKept(a, b, hash)
    ensures forall t: StripeId, i: nat :: t != s ==> b.Read(hash, t, i) == a.Read(hash, t, i)
  {
    hide View.Read, Restored, OnlyMoved, ApartOn, KeptShards;
  }

  lemma CheckedMade(b: State, w: View, c: State, x: View, hash: Vec -> Checksum, s: StripeId, row: StripeRow, data: Vec,
                    placed: set<nat>, bad: bool, time: nat)
    requires s in b.stripes && b.stripes[s] == row && !row.state.Pending?
             && Repaired(w, x, hash, s, row, data, placed, {})
    requires (bad <==> |w.Good(hash, s, row.k + row.m)| < row.k) && (bad ==> SameReads(w, x, hash))
    requires c.stripes == b.stripes[s := row.(state := if bad then Unrecoverable else Committed, scrubbed := time)]
    ensures Checked(b, w, c, x, hash, s, data, placed, bad, time)
  {
    hide Repaired, SameReads;
  }

  function StampOf(stripes: map<StripeId, StripeRow>, s: StripeId): nat {
    if s in stripes then stripes[s].scrubbed else 0
  }

  /** Distinct stripes in the order of their last verification, before any of rest. */
  ghost predicate OldestFirst(stripes: map<StripeId, StripeRow>, ids: seq<StripeId>, rest: set<StripeId>) {
    (forall i, j :: 0 <= i < j < |ids| ==> ids[i] != ids[j] && StampOf(stripes, ids[i]) <= StampOf(stripes, ids[j]))
    && (forall i, s :: 0 <= i < |ids| && s in rest ==> ids[i] != s && StampOf(stripes, ids[i]) <= StampOf(stripes, s))
  }

  lemma NothingBefore(stripes: map<StripeId, StripeRow>, rest: set<StripeId>)
    ensures OldestFirst(stripes, [], rest)
  {}

  lemma NextOldest(stripes: map<StripeId, StripeRow>, ids: seq<StripeId>, rest: set<StripeId>, s: StripeId)
    requires OldestFirst(stripes, ids, rest) && s in rest
    requires forall t :: t in rest ==> StampOf(stripes, s) <= StampOf(stripes, t)
    ensures OldestFirst(stripes, ids + [s], rest - {s})
  {
    hide StampOf;
  }

  lemma DistinctIds(stripes: map<StripeId, StripeRow>, ids: seq<StripeId>)
    requires OldestFirst(stripes, ids, {})
    ensures forall i, j :: 0 <= i < j < |ids| ==> ids[i] != ids[j]
  {
    hide StampOf;
  }

  lemma NothingAfter(stripes: map<StripeId, StripeRow>, ids: seq<StripeId>, rest: set<StripeId>)
    requires OldestFirst(stripes, ids, rest)
    ensures OldestFirst(stripes, ids, {})
  {
    hide StampOf;
  }

  lemma StaleParts(stripes: map<StripeId, StripeRow>, cutoff: int, s: StripeId)
    requires s in Stale(stripes, cutoff)
    ensures s in stripes && !stripes[s].state.Pending? && stripes[s].scrubbed < cutoff
  {}

  lemma StillVisible(a: State, v: View, b: State, w: View, hash: Vec -> Checksum, checked: set<StripeId>, since: nat,
                     s: StripeId)
    requires Scrubbed(a, v, b, w, hash, checked, since) && s in a.stripes && !a.stripes[s].state.Pending?
    ensures s in b.stripes && !b.stripes[s].state.Pending?
  {
    hide View.Read, Verifying, SameVisible, AllReadsKept;
  }

  lemma ElementsNext(ids: seq<StripeId>, i: nat)
    requires i < |ids|
    ensures Elements(ids[..i + 1]) == Elements(ids[..i]) + {ids[i]}
  {
    assert ids[..i + 1] == ids[..i] + [ids[i]];
  }

  lemma ElementsAdd(ids: seq<StripeId>, s: StripeId)
    ensures Elements(ids + [s]) == Elements(ids) + {s}
    ensures forall t :: t in Elements(ids) <==> t in ids
  {}

  lemma InElements(ids: seq<StripeId>, s: StripeId)
    ensures s in Elements(ids) <==> s in ids
  {}

  lemma ElementsAll(ids: seq<StripeId>)
    ensures forall s :: s in Elements(ids[..|ids|]) <==> s in ids
    ensures var none: seq<StripeId> := []; Elements(none) == {}
  {
    assert ids[..|ids|] == ids;
  }

  lemma FewerStale(a: map<StripeId, StripeRow>, s: StripeId, row: StripeRow, cutoff: int)
    requires s in a && row.scrubbed >= cutoff
    ensures Stale(a[s := row], cutoff) == Stale(a, cutoff) - {s}
  {}

  /** The statistics after a stripe of this row was checked and so many shards were rewritten. */
  ghost function WithStripe(stats: Stats, v: View, hash: Vec -> Checksum, s: StripeId, row: StripeRow,
                            repaired: nat): Stats {
    var n := row.k + row.m;
    Stats(stats.checked + 1, stats.verified + |v.Good(hash, s, n)|, stats.corrupt + |CorruptShards(v, hash, s, n)|,
          stats.missing + |MissingShards(v, hash, s, n)|, stats.repaired + repaired,
          stats.unrecoverable + if |v.Good(hash, s, n)| < row.k then 1 else 0)
  }

  lemma StatsAre(stats: Stats, v: View, hash: Vec -> Checksum, s: StripeId, row: StripeRow, repaired: nat)
    ensures var n := row.k + row.m;
            WithStripe(stats, v, hash, s, row, repaired)
            == Stats(stats.checked + 1, stats.verified + |v.Good(hash, s, n)|,
                     stats.corrupt + |CorruptShards(v, hash, s, n)|,
                     stats.missing + |MissingShards(v, hash, s, n)|, stats.repaired + repaired,
                     stats.unrecoverable + if |v.Good(hash, s, n)| < row.k then 1 else 0)
  {
    hide View.Read, CorruptShards, MissingShards;
  }

  // ---------------------------------------------------------------- the totals of a pass

  /** The listed shards of these stripes. */
  ghost function KeysIn(parts: map<StripeId, set<nat>>, checked: set<StripeId>): set<ShardKey> {
    set s, i | s in checked && s in parts && i in parts[s] :: ShardKey(s, i)
  }

  ghost function VerifiedIn(v: View, hash: Vec -> Checksum, stripes: map<StripeId, StripeRow>)
    : map<StripeId, set<nat>>
  {
    map s | s in stripes :: v.Good(hash, s, stripes[s].k + stripes[s].m).Keys
  }

  ghost function CorruptIn(v: View, hash: Vec -> Checksum, stripes: map<StripeId, StripeRow>)
    : map<StripeId, set<nat>>
  {
    map s | s in stripes :: CorruptShards(v, hash, s, stripes[s].k + stripes[s].m)
  }

  ghost function MissingIn(v: View, hash: Vec -> Checksum, stripes: map<StripeId, StripeRow>)
    : map<StripeId, set<nat>>
  {
    map s | s in stripes :: MissingShards(v, hash, s, stripes[s].k + stripes[s].m)
  }

  /** The stripes of which fewer than k shards verify. */
  ghost function LostStripes(v: View, hash: Vec -> Checksum, stripes: map<StripeId, StripeRow>,
                             checked: set<StripeId>): set<StripeId>
  {
    set s | s in checked && s in stripes && Verifying(v, hash, s, stripes[s]) < stripes[s].k
  }

  /** The statistics count, of the stripes checked so far, what verified, was corrupt, was missing or was lost when
      the pass began, and what was rewritten since: shards that did not verify then, and do now. */
  ghost predicate Totalled(stats: Stats, v: View, w: View, hash: Vec -> Checksum, stripes: map<StripeId, StripeRow>,
                           checked: set<StripeId>, rewritten: set<ShardKey>)
  {
    stats == Stats(|checked|, |KeysIn(VerifiedIn(v, hash, stripes), checked)|,
                   |KeysIn(CorruptIn(v, hash, stripes), checked)|,
                   |KeysIn(MissingIn(v, hash, stripes), checked)|, |rewritten|,
                       |LostStripes(v, hash, stripes, checked)|)
    && Elsewhere(v, w, checked) && Worn(v.disks, w.disks) && Restores(v, w, hash, checked, rewritten)
  }

  /** These shards of the checked stripes did not verify, and do now. */
  ghost predicate Restores(v: View, w: View, hash: Vec -> Checksum, checked: set<StripeId>, rewritten: set<ShardKey>) {
    forall key :: key in rewritten ==>
      key.stripe in checked && v.Read(hash, key.stripe, key.idx).None? && w.Read(hash, key.stripe, key.idx).Some?
  }

  lemma CheckedCount(stats: Stats, v: View, w: View, hash: Vec -> Checksum, stripes: map<StripeId, StripeRow>,
                     checked: set<StripeId>, rewritten: set<ShardKey>)
    requires Totalled(stats, v, w, hash, stripes, checked, rewritten)
    ensures stats.checked == |checked|
  {
    hide Elsewhere, Worn, Restores;
  }

  lemma TotalledStart(v: View, hash: Vec -> Checksum, stripes: map<StripeId, StripeRow>)
    ensures Totalled(Stats(0, 0, 0, 0, 0, 0), v, v, hash, stripes, {}, {})
  {
    WornSame(v.disks);
    ElsewhereSame(v, {});
    assert forall parts :: KeysIn(parts, {}) == {};
    assert LostStripes(v, hash, stripes, {}) == {};
    hide Worn, Elsewhere, View.Read;
  }

  /** A stripe that was not touched looks as it did at the start. */
  lemma LooksSame(a: View, b: View, hash: Vec -> Checksum, touched: set<StripeId>, s: StripeId, i: nat)
    requires Elsewhere(a, b, touched) && Worn(a.disks, b.disks) && s !in touched
    ensures b.Read(hash, s, i) == a.Read(hash, s, i) && ObservedAt(b, hash, s, i) == ObservedAt(a, hash, s, i)
  {
    if ShardKey(s, i) in a.shards {
      var row := a.shards[ShardKey(s, i)];
      StaleDisks(a.disks, b.disks, b.files, hash, s, i, row);
      SameFile(a, b, hash, touched, s, i, row);
    }
  }

  lemma SameFile(a: View, b: View, hash: Vec -> Checksum, touched: set<StripeId>, s: StripeId, i: nat, row: ShardRow)
    requires Elsewhere(a, b, touched) && s !in touched
    ensures TryRead(a.disks, b.files, hash, s, i, row) == TryRead(a.disks, a.files, hash, s, i, row)
    ensures Observed(a.disks, b.files, hash, s, i, row) == Observed(a.disks, a.files, hash, s, i, row)
  {}

  lemma CountsSame(a: View, b: View, hash: Vec -> Checksum, touched: set<StripeId>, s: StripeId, n: nat)
    requires Elsewhere(a, b, touched) && Worn(a.disks, b.disks) && s !in touched
    ensures b.Good(hash, s, n) == a.Good(hash, s, n)
    ensures CorruptShards(b, hash, s, n) == CorruptShards(a, hash, s, n)
    ensures MissingShards(b, hash, s, n) == MissingShards(a, hash, s, n)
  {
    forall i: nat
      ensures b.Read(hash, s, i) == a.Read(hash, s, i) && ObservedAt(b, hash, s, i) == ObservedAt(a, hash, s, i)
    {
      LooksSame(a, b, hash, touched, s, i);
    }
    hide View.Read, ObservedAt, Elsewhere, Worn;
  }

  lemma KeysMore(before: set<ShardKey>, after: set<ShardKey>, s: StripeId, on: set<nat>)
    requires after == before + KeysOf(s, on) && forall key :: key in before ==> key.stripe != s
    ensures |after| == |before| + |on|
  {
    KeysSize(s, on);
    assert before !! KeysOf(s, on);
  }

  lemma {:induction false} KeysSize(s: StripeId, on: set<nat>)
    ensures |KeysOf(s, on)| == |on|
    decreases on
  {
    if on == {} {
      assert KeysOf(s, on) == {};
    } else {
      var i :| i in on;
      KeysSize(s, on - {i});
      assert KeysOf(s, on) == KeysOf(s, on - {i}) + {ShardKey(s, i)};
    }
  }

  lemma KeysNext(parts: map<StripeId, set<nat>>, checked: set<StripeId>, s: StripeId)
    requires s in parts && s !in checked
    ensures |KeysIn(parts, checked + {s})| == |KeysIn(parts, checked)| + |parts[s]|
  {
    KeysMore(KeysIn(parts, checked), KeysIn(parts, checked + {s}), s, parts[s]);
  }

  /** One more stripe in each of the counts. */
  lemma CountsNext(v: View, hash: Vec -> Checksum, stripes: map<StripeId, StripeRow>, checked: set<StripeId>,
                   s: StripeId)
    requires s in stripes && s !in checked
    ensures var n := stripes[s].k + stripes[s].m;
            |KeysIn(VerifiedIn(v, hash, stripes), checked + {s})|
            == |KeysIn(VerifiedIn(v, hash, stripes), checked)| + |v.Good(hash, s, n)|
            && |KeysIn(CorruptIn(v, hash, stripes), checked + {s})|
               == |KeysIn(CorruptIn(v, hash, stripes), checked)| + |CorruptShards(v, hash, s, n)|
            && |KeysIn(MissingIn(v, hash, stripes), checked + {s})|
               == |KeysIn(MissingIn(v, hash, stripes), checked)| + |MissingShards(v, hash, s, n)|
  {
    hide View.Read, View.Good, CorruptShards, MissingShards, KeysIn;
    var good := v.Good(hash, s, stripes[s].k + stripes[s].m);
    assert |good.Keys| == |good|;
    KeysNext(VerifiedIn(v, hash, stripes), checked, s);
    KeysNext(CorruptIn(v, hash, stripes), checked, s);
    KeysNext(MissingIn(v, hash, stripes), checked, s);
  }

  lemma LostNext(v: View, hash: Vec -> Checksum, stripes: map<StripeId, StripeRow>, checked: set<StripeId>, s: StripeId)
    requires s in stripes && s !in checked
    ensures |LostStripes(v, hash, stripes, checked + {s})|
            == |LostStripes(v, hash, stripes, checked)|
               + if Verifying(v, hash, s, stripes[s]) < stripes[s].k then 1 else 0
  {
    hide Verifying;
    assert LostStripes(v, hash, stripes, checked + {s})
        == LostStripes(v, hash, stripes, checked)
           + if Verifying(v, hash, s, stripes[s]) < stripes[s].k then {s} else {};
  }

  lemma StatsNext(stats: Stats, v: View, w: View, hash: Vec -> Checksum, stripes: map<StripeId, StripeRow>,
                  checked: set<StripeId>, s: StripeId, repaired: nat)
    requires s in stripes && s !in checked
    requires stats == Stats(|checked|, |KeysIn(VerifiedIn(v, hash, stripes), checked)|,
                            |KeysIn(CorruptIn(v, hash, stripes), checked)|,
                            |KeysIn(MissingIn(v, hash, stripes), checked)|, stats.repaired,
                            |LostStripes(v, hash, stripes, checked)|)
    requires var n := stripes[s].k + stripes[s].m;
             w.Good(hash, s, n) == v.Good(hash, s, n) && CorruptShards(w, hash, s, n) == CorruptShards(v, hash, s, n)
             && MissingShards(w, hash, s, n) == MissingShards(v, hash, s, n)
    ensures WithStripe(stats, w, hash, s, stripes[s], repaired)
            == Stats(|checked + {s}|, |KeysIn(VerifiedIn(v, hash, stripes), checked + {s})|,
                     |KeysIn(CorruptIn(v, hash, stripes), checked + {s})|,
                     |KeysIn(MissingIn(v, hash, stripes), checked + {s})|, stats.repaired + repaired,
                     |LostStripes(v, hash, stripes, checked + {s})|)
  {
    hide *;
    StatsAre(stats, w, hash, s, stripes[s], repaired);
    CountsNext(v, hash, stripes, checked, s);
    LostNext(v, hash, stripes, checked, s);
    VerifyingIs(v, hash, s, stripes[s]);
  }

  /** One more stripe was checked, and some of its shards were rewritten. */
  lemma TotalledNext(stats: Stats, v: View, w: View, x: View, hash: Vec -> Checksum,
                     stripes: map<StripeId, StripeRow>, checked: set<StripeId>, rewritten: set<ShardKey>, s: StripeId,
                     row: StripeRow, data: Vec, placed: set<nat>)
    requires Totalled(stats, v, w, hash, stripes, checked, rewritten) && s in stripes && s !in checked
    requires stripes[s] == row && Repaired(w, x, hash, s, row, data, placed, {}) && Elsewhere(w, x, {s})
    requires Worn(w.disks, x.disks) && forall i :: i in placed ==> w.Read(hash, s, i).None?
    ensures Totalled(WithStripe(stats, w, hash, s, row, |placed|), v, x, hash, stripes, checked + {s},
                     rewritten + KeysOf(s, placed))
  {
    hide *;
    TotalledParts(stats, v, w, hash, stripes, checked, rewritten);
    CountsSame(v, w, hash, checked, s, row.k + row.m);
    StatsNext(stats, v, w, hash, stripes, checked, s, |placed|);
    RewrittenNext(v, w, x, hash, checked, rewritten, s, row, data, placed);
    KeysMore(rewritten, rewritten + KeysOf(s, placed), s, placed);
    WornTrans(v.disks, w.disks, x.disks);
    ElsewhereMore(v, w, x, checked, s);
    TotalledFrom(WithStripe(stats, w, hash, s, row, |placed|), v, x, hash, stripes, checked + {s},
                 rewritten + KeysOf(s, placed));
  }

  lemma VerifyingIs(v: View, hash: Vec -> Checksum, s: StripeId, row: StripeRow)
    ensures Verifying(v, hash, s, row) == |v.Good(hash, s, row.k + row.m)|
  {
    hide View.Read;
  }

  lemma ElsewhereMore(v: View, w: View, x: View, checked: set<StripeId>, s: StripeId)
    requires Elsewhere(v, w, checked) && Elsewhere(w, x, {s})
    ensures Elsewhere(v, x, checked + {s})
  {}

  lemma TotalledParts(stats: Stats, v: View, w: View, hash: Vec -> Checksum, stripes: map<StripeId, StripeRow>,
                      checked: set<StripeId>, rewritten: set<ShardKey>)
    requires Totalled(stats, v, w, hash, stripes, checked, rewritten)
    ensures stats == Stats(|checked|, |KeysIn(VerifiedIn(v, hash, stripes), checked)|,
                           |KeysIn(CorruptIn(v, hash, stripes), checked)|,
                               |KeysIn(MissingIn(v, hash, stripes), checked)|,
                           |rewritten|, |LostStripes(v, hash, stripes, checked)|)
    ensures Elsewhere(v, w, checked) && Worn(v.disks, w.disks) && Restores(v, w, hash, checked, rewritten)
  {
    hide Restores, Elsewhere, Worn, KeysIn, VerifiedIn, CorruptIn, MissingIn, LostStripes;
  }

  lemma TotalledFrom(stats: Stats, v: View, w: View, hash: Vec -> Checksum, stripes: map<StripeId, StripeRow>,
                     checked: set<StripeId>, rewritten: set<ShardKey>)
    requires stats == Stats(|checked|, |KeysIn(VerifiedIn(v, hash, stripes), checked)|,
                            |KeysIn(CorruptIn(v, hash, stripes), checked)|,
                                |KeysIn(MissingIn(v, hash, stripes), checked)|,
                            |rewritten|, |LostStripes(v, hash, stripes, checked)|)
    requires Elsewhere(v, w, checked) && Worn(v.disks, w.disks) && Restores(v, w, hash, checked, rewritten)
    ensures Totalled(stats, v, w, hash, stripes, checked, rewritten)
  {
    hide Restores, Elsewhere, Worn, KeysIn, VerifiedIn, CorruptIn, MissingIn, LostStripes;
  }

  lemma RewrittenNext(v: View, w: View, x: View, hash: Vec -> Checksum, checked: set<StripeId>,
                      rewritten: set<ShardKey>, s: StripeId, row: StripeRow, data: Vec, placed: set<nat>)
    requires Elsewhere(v, w, checked) && Worn(v.disks, w.disks) && s !in checked
    requires Repaired(w, x, hash, s, row, data, placed, {}) && forall i :: i in placed ==> w.Read(hash, s, i).None?
    requires Restores(v, w, hash, checked, rewritten)
    ensures Restores(v, x, hash, checked + {s}, rewritten + KeysOf(s, placed))
    ensures forall key :: key in rewritten ==> key.stripe != s
  {
    forall i | i in placed
      ensures v.Read(hash, s, i).None? && x.Read(hash, s, i).Some?
    {
      LooksSame(v, w, hash, checked, s, i);
      RestoredReads(w, x, hash, s, row, data, placed, {}, i);
    }
    RepairedReads(w, x, hash, s, row, data, placed);
    hide View.Read, Elsewhere, Worn, Repaired;
  }

  /** A stripe that is stale was not checked yet. */
  lemma NotChecked(a: State, v: View, b: State, w: View, hash: Vec -> Checksum, checked: set<StripeId>, since: nat,
                   s: StripeId, cutoff: int)
    requires Scrubbed(a, v, b, w, hash, checked, since) && s in Stale(b.stripes, cutoff) && cutoff <= since
    ensures s !in checked && s in Stale(a.stripes, cutoff)
  {
    hide View.Read, Verifying, SameVisible, AllReadsKept;
  }

  lemma UncheckedRow(a: State, v: View, b: State, w: View, hash: Vec -> Checksum, checked: set<StripeId>, since: nat,
                     s: StripeId)
    requires Scrubbed(a, v, b, w, hash, checked, since) && s in b.stripes && s !in checked
    ensures s in a.stripes && b.stripes[s] == a.stripes[s]
  {
    hide View.Read, FlagExact, SameVisible, AllReadsKept;
  }

  /** A repair that vacates no disk rewrites only shards that do not verify. */
  lemma PlacedUnread(v: View, b: View, before: map<DiskId, Disk>, hash: Vec -> Checksum, s: StripeId, n: nat,
                     out: Outcome)
    requires out == Outcome({}, {}, map[])
             || var kept := KeptShards(v, hash, s, n, {});
                Accounted(b, before, s, kept, out, Range(n) - kept, {})
    ensures forall i :: i in out.placed ==> v.Read(hash, s, i).None?
  {
    hide View.Read, Housed, NoRoom, Alone;
  }

  class Scrubber {
    const store: ObjectStore
    const interval: nat
    /** The time of day; it never goes back. */
    var clock: nat

    constructor (store: ObjectStore, interval: nat, clock: nat)
      ensures this.store == store && this.interval == interval && this.clock == clock
    {
      this.store, this.interval, this.clock := store, interval, clock;
    }

    method Time() returns (now: nat)
      modifies this
      ensures now == clock >= old(clock)
    {
      var elapsed: nat :| elapsed >= 0;
      clock := clock + elapsed;
      now := clock;
    }

    /** Verify and repair one stripe. */
    method Process(s: StripeId, stats: Stats, ghost start: State, ghost view: View, ghost checked: set<StripeId>,
                   ghost since: nat, ghost rewritten: set<ShardKey>)
      returns (next: Stats, ghost out: Outcome)
      requires store.Valid() && Injective(store.hash) && s in store.stripes && !store.stripes[s].state.Pending?
      requires Scrubbed(start, view, store.Now(), store.Live(), store.hash, checked, since) && since <= clock
      requires Totalled(stats, view, store.Live(), store.hash, start.stripes, checked, rewritten) && s !in checked
      modifies store, this
      ensures store.Valid() && old(clock) <= clock
      ensures next == WithStripe(stats, old(store.Live()), store.hash, s, old(store.stripes[s]), |out.placed|)
      ensures s in store.content
              && Repaired(old(store.Live()), store.Live(), store.hash, s, old(store.stripes[s]), store.content[s],
                          out.placed, {})
      ensures Scrubbed(start, view, store.Now(), store.Live(), store.hash, checked + {s}, since)
      ensures Totalled(next, view, store.Live(), store.hash, start.stripes, checked + {s},
                       rewritten + KeysOf(s, out.placed))
      ensures forall cutoff: int :: cutoff <= since ==>
                Stale(store.stripes, cutoff) == Stale(old(store.stripes), cutoff) - {s}
      ensures s in store.stripes && store.stripes[s].scrubbed >= old(clock)
    {
      hide *;
      ghost var now, live := store.Now(), store.Live();
      store.NowParts();
      store.LiveParts();
      var time := Time();
      var row := store.stripes[s];
      var res;
      res, out := store.RepairStripe(s, {}, time);
      store.NowParts();
      CheckedMade(now, live, store.Now(), store.Live(), store.hash, s, row, store.content[s], out.placed,
                  res.unrecoverable, time);
      ScrubbedNext(start, view, now, live, store.Now(), store.Live(), store.hash, checked, since, s, store.content[s],
                   out.placed, res.unrecoverable, time);
      forall cutoff: int | cutoff <= since
        ensures Stale(store.stripes, cutoff) == Stale(old(store.stripes), cutoff) - {s}
      {
        FewerStale(old(store.stripes), s, store.stripes[s], cutoff);
      }
      StatsAre(stats, live, store.hash, s, row, |out.placed|);
      UncheckedRow(start, view, now, live, store.hash, checked, since, s);
      store.LiveParts();
      PlacedUnread(live, store.Live(), live.disks, store.hash, s, row.k + row.m, out);
      TotalledNext(stats, view, live, store.Live(), store.hash, start.stripes, checked, rewritten, s, row,
                   store.content[s], out.placed);
      next := Stats(stats.checked + 1, stats.verified + res.verified, stats.corrupt + res.corrupt,
                    stats.missing + res.missing, stats.repaired + res.repaired,
                    stats.unrecoverable + (if res.unrecoverable then 1 else 0));
    }

    /** Visible stripes with a shard row that is not healthy. */
    method NeedingRepair() returns (ids: set<StripeId>)
      ensures Foremost(store.stripes, store.shards, ids) && |ids| <= FIRST_REPAIRS
    {
      hide IsDamaged, Damaged, Foremost;
      var all := Damaged(store.stripes, store.shards);
      ids := {};
      var rest := all;
      while rest != {} && |ids| < FIRST_REPAIRS
        invariant rest == all - ids && ids <= all && |ids| <= FIRST_REPAIRS
        decreases rest
      {
        var s :| s in rest;
        ids, rest := ids + {s}, rest - {s};
      }
      ForemostOf(store.stripes, store.shards, ids);
    }

    /** The stripe verified longest ago. */
    method Oldest(ids: set<StripeId>) returns (s: StripeId)
      requires ids != {}
      ensures s in ids && forall t :: t in ids ==> StampOf(store.stripes, s) <= StampOf(store.stripes, t)
    {
      s :| s in ids;
      var rest := ids - {s};
      while rest != {}
        invariant rest <= ids && s in ids
        invariant forall t :: t in ids && t !in rest ==> StampOf(store.stripes, s) <= StampOf(store.stripes, t)
        decreases rest
      {
        var t :| t in rest;
        if StampOf(store.stripes, t) < StampOf(store.stripes, s) {
          s := t;
        }
        rest := rest - {t};
      }
    }

    /** At most a batch of stale stripes, those verified longest ago first. */
    method NextBatch(cutoff: int) returns (ids: seq<StripeId>)
      ensures |ids| <= BATCH && (ids == [] <==> Stale(store.stripes, cutoff) == {})
      ensures forall s :: s in ids ==> s in Stale(store.stripes, cutoff)
      ensures OldestFirst(store.stripes, ids, Stale(store.stripes, cutoff) - Elements(ids))
    {
      hide OldestFirst, StampOf, Stale;
      ids := [];
      var all := Stale(store.stripes, cutoff);
      var rest := all;
      NothingBefore(store.stripes, rest);
      ElementsAll([]);
      while rest != {} && |ids| < BATCH
        invariant |ids| <= BATCH && rest == all - Elements(ids) && (forall s :: s in ids ==> s in all)
        invariant OldestFirst(store.stripes, ids, rest)
        decreases rest
      {
        var s := Oldest(rest);
        NextOldest(store.stripes, ids, rest, s);
        ElementsAdd(ids, s);
        ids, rest := ids + [s], rest - {s};
      }
      if ids != [] {
        assert ids[0] in all;
      }
    }

    /** Process a batch in order; stop early when told to or when enough stripes were checked. */
    method ProcessBatch(batch: seq<StripeId>, stats: Stats, maxStripes: Option<nat>, cutoff: int, ghost start: State,
                        ghost view: View, ghost before: set<StripeId>, ghost since: nat,
                        ghost written: set<ShardKey>)
      returns (stopped: bool, limited: bool, progressed: bool, next: Stats, ghost checked: set<StripeId>,
               ghost rewritten: set<ShardKey>)
      requires store.Valid() && Injective(store.hash) && cutoff <= since <= clock
      requires Scrubbed(start, view, store.Now(), store.Live(), store.hash, before, since)
      requires Totalled(stats, view, store.Live(), store.hash, start.stripes, before, written)
      requires Due(start, cutoff, maxStripes, before)
      requires batch != [] && OldestFirst(store.stripes, batch, {}) && forall s :: s in batch ==>
                 s in Stale(store.stripes, cutoff)
      modifies store, this
      ensures store.Valid() && old(clock) <= clock
      ensures Scrubbed(start, view, store.Now(), store.Live(), store.hash, checked, since)
      ensures Totalled(next, view, store.Live(), store.hash, start.stripes, checked, rewritten)
      ensures Stale(store.stripes, cutoff) <= Stale(old(store.stripes), cutoff)
      ensures Due(start, cutoff, maxStripes, checked) && before <= checked
      ensures limited ==> maxStripes.Some? && next.checked >= maxStripes.value
      ensures !stopped && !limited ==> progressed && batch[0] !in Stale(store.stripes, cutoff)
    {
      hide *;
      stopped, limited, progressed, next, checked, rewritten := false, false, false, stats, before, written;
      ghost var stale := Stale(store.stripes, cutoff);
      DistinctIds(store.stripes, batch);
      ElementsAll(batch);
      for i := 0 to |batch|
        invariant store.Valid() && since <= clock && old(clock) <= clock && (i > 0 ==> progressed) && !stopped
                  && !limited
        invariant Scrubbed(start, view, store.Now(), store.Live(), store.hash, checked, since)
        invariant Totalled(next, view, store.Live(), store.hash, start.stripes, checked, rewritten)
        invariant Due(start, cutoff, maxStripes, checked) && before <= checked
        invariant Stale(store.stripes, cutoff) == stale - Elements(batch[..i])
      {
        if * {
          stopped := true;
          return;
        }
        if maxStripes.Some? && next.checked >= maxStripes.value {
          limited := true;
          return;
        }
        var s := batch[i];
        assert s in batch && s !in batch[..i];
        InElements(batch[..i], s);
        StaleParts(store.stripes, cutoff, s);
        var was := store.stripes[s].scrubbed;
        store.NowParts();
        NotChecked(start, view, store.Now(), store.Live(), store.hash, checked, since, s, cutoff);
        CheckedCount(next, view, store.Live(), store.hash, start.stripes, checked, rewritten);
        DueNext(start, cutoff, maxStripes, checked, s);
        ghost var out;
        next, out := Process(s, next, start, view, checked, since, rewritten);
        checked, rewritten := checked + {s}, rewritten + KeysOf(s, out.placed);
        progressed := progressed || store.stripes[s].scrubbed != was;
        ElementsNext(batch, i);
      }
      assert batch[0] in batch[..|batch|];
      ElementsAll(batch);
    }

    /** One pass: stripes known to be damaged first, then every stripe verified before the cutoff. */
    method Run(full: bool, maxStripes: Option<nat>)
      returns (status: ScrubStatus, stats: Stats, ghost checked: set<StripeId>, ghost since: nat,
               ghost rewritten: set<ShardKey>)
      requires store.Valid() && Injective(store.hash)
      modifies store, this
      ensures store.Valid() && old(clock) <= since <= clock
      ensures Scrubbed(old(store.Now()), old(store.Live()), store.Now(), store.Live(), store.hash, checked, since)
      ensures Totalled(stats, old(store.Live()), store.Live(), store.hash, old(store.stripes), checked, rewritten)
      ensures status.Completed? ==>
                Stale(store.stripes, if full then since else since - interval) == {}
                || (maxStripes.Some? && stats.checked >= maxStripes.value)
      ensures status.Completed? && |checked| < FIRST_REPAIRS ==>
                forall s :: IsDamaged(old(store.stripes), old(store.shards), s) ==> s in checked
      ensures Due(old(store.Now()), if full then since else since - interval, maxStripes, checked)
    {
      hide *;
      ghost var start, view := store.Now(), store.Live();
      store.NowParts();
      var started := Time();
      since, checked, rewritten := started, {}, {};
      stats := Stats(0, 0, 0, 0, 0, 0);
      TotalledStart(view, store.hash, start.stripes);
      ScrubbedStart(start, view, store.hash, since);
      var cutoff: int := if full then started else started - interval;
      var damaged := NeedingRepair();
      ghost var first := damaged;
      while damaged != {}
        invariant store.Valid() && since <= clock && damaged == first - checked && checked <= first
                  && Foremost(start.stripes, start.shards, first)
        invariant Scrubbed(start, view, store.Now(), store.Live(), store.hash, checked, since)
        invariant Totalled(stats, view, store.Live(), store.hash, start.stripes, checked, rewritten)
        decreases damaged
      {
        DueFirst(start, cutoff, maxStripes, first, checked);
        if * {
          return Aborted, stats, checked, since, rewritten;
        }
        var s :| s in damaged;
        damaged := damaged - {s};
        StillVisible(start, view, store.Now(), store.Live(), store.hash, checked, since, s);
        store.NowParts();
        ghost var out;
        stats, out := Process(s, stats, start, view, checked, since, rewritten);
        checked, rewritten := checked + {s}, rewritten + KeysOf(s, out.placed);
      }
      DueFirst(start, cutoff, maxStripes, first, checked);
      var batch := NextBatch(cutoff);
      NothingAfter(store.stripes, batch, Stale(store.stripes, cutoff) - Elements(batch));
      while batch != []
        invariant store.Valid() && since <= clock && first <= checked && Due(start, cutoff, maxStripes, checked)
        invariant Scrubbed(start, view, store.Now(), store.Live(), store.hash, checked, since)
        invariant Totalled(stats, view, store.Live(), store.hash, start.stripes, checked, rewritten)
        invariant forall s :: s in batch ==> s in Stale(store.stripes, cutoff)
        invariant OldestFirst(store.stripes, batch, {}) && (batch == [] ==> Stale(store.stripes, cutoff) == {})
        decreases Stale(store.stripes, cutoff)
      {
        assert batch[0] in batch;
        var stopped, limited, progressed;
        stopped, limited, progressed, stats, checked, rewritten :=
          ProcessBatch(batch, stats, maxStripes, cutoff, start, view, checked, since, rewritten);
        if stopped {
          return Aborted, stats, checked, since, rewritten;
        }
        if limited || !progressed {
          if |checked| < FIRST_REPAIRS {
            FirstChecked(start, first, checked);
          }
          return Completed, stats, checked, since, rewritten;
        }
        batch := NextBatch(cutoff);
        NothingAfter(store.stripes, batch, Stale(store.stripes, cutoff) - Elements(batch));
      }
      if |checked| < FIRST_REPAIRS {
        FirstChecked(start, first, checked);
      }
      return Completed, stats, checked, since, rewritten;
    }
  }
}
