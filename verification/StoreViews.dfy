/** How each kind of disk activity changes what can be read. */
module StoreViews {
  import opened LinearAlgebra
  import opened StoreTypes

  /** Exactly the same shards verify, with the same bytes. */
  ghost predicate SameReads(a: View, b: View, hash: Vec -> Checksum) {
    forall s: StripeId, i: nat :: b.Read(hash, s, i) == a.Read(hash, s, i)
  }

  /** Every verifiable shard still verifies, with the same bytes. */
  ghost predicate AllReadsKept(a: View, b: View, hash: Vec -> Checksum) {
    forall s: StripeId, i: nat :: a.Read(hash, s, i).Some? ==> b.Read(hash, s, i) == a.Read(hash, s, i)
  }

  /** Every verifiable shard of the stripes in keep still verifies, with the same bytes. */
  ghost predicate Spares(a: View, b: View, hash: Vec -> Checksum, keep: set<StripeId>) {
    forall s: StripeId, i: nat :: s in keep && a.Read(hash, s, i).Some? ==> b.Read(hash, s, i) == a.Read(hash, s, i)
  }

  lemma SameSpares(a: View, b: View, hash: Vec -> Checksum, keep: set<StripeId>)
    requires SameReads(a, b, hash)
    ensures Spares(a, b, hash, keep)
  {
    hide View.Read;
  }

  lemma SparesTrans(a: View, b: View, c: View, hash: Vec -> Checksum, keep: set<StripeId>, more: set<StripeId>)
    requires Spares(a, b, hash, keep) && Spares(b, c, hash, more) && keep <= more
    ensures Spares(a, c, hash, keep)
  {
    hide View.Read;
  }

  lemma SameTrans(a: View, b: View, c: View, hash: Vec -> Checksum)
    requires SameReads(a, b, hash) && SameReads(b, c, hash)
    ensures SameReads(a, c, hash)
  {
    hide View.Read;
  }

  /** What errors do to disks: counters never fall, a disk whose counter stays is as it was, and
      at most an online disk becomes degraded. */
  ghost predicate Worn(a: map<DiskId, Disk>, b: map<DiskId, Disk>) {
    a.Keys == b.Keys
    && forall d :: d in a ==>
         a[d].errors <= b[d].errors && (a[d].errors == b[d].errors ==> b[d] == a[d])
         && (b[d].status == a[d].status || (a[d].status.Online? && b[d].status.Degraded?))
  }

  /** The disks that reported errors between a and b. */
  ghost function Faulted(a: map<DiskId, Disk>, b: map<DiskId, Disk>): set<DiskId> {
    set d | d in a && d in b && a[d].errors < b[d].errors
  }

  lemma WornSame(a: map<DiskId, Disk>)
    ensures Worn(a, a) && Faulted(a, a) == {}
  {}

  lemma WornTrans(a: map<DiskId, Disk>, b: map<DiskId, Disk>, c: map<DiskId, Disk>)
    requires Worn(a, b) && Worn(b, c)
    ensures Worn(a, c) && Faulted(a, c) == Faulted(a, b) + Faulted(b, c)
  {}

  /** Reading through a stale list of disks is reading through the current one. */
  lemma StaleDisks(a: map<DiskId, Disk>, b: map<DiskId, Disk>, files: map<Path, Slot>, hash: Vec -> Checksum,
                   s: StripeId,
                   i: nat, row: ShardRow)
    requires Worn(a, b)
    ensures TryRead(a, files, hash, s, i, row) == TryRead(b, files, hash, s, i, row)
    ensures Observed(a, files, hash, s, i, row) == Observed(b, files, hash, s, i, row)
    ensures ReadFaults(a, files, hash, s, i, row) == ReadFaults(b, files, hash, s, i, row)
    ensures Attempted(a, row) == Attempted(b, row)
  {}

  lemma HealthKeepsReads(a: View, b: View, hash: Vec -> Checksum)
    requires Worn(a.disks, b.disks) && b.files == a.files && b.shards == a.shards
    ensures SameReads(a, b, hash)
  {
    hide ReadShard;
  }

  /** Marking a shard that does not verify, as missing or, after an attempt, as corrupt. */
  lemma MarkKeepsReads(a: View, b: View, hash: Vec -> Checksum, key: ShardKey, state: ShardState)
    requires key in a.shards && a.Read(hash, key.stripe, key.idx).None?
    requires state == Missing || (state == Corrupt && a.shards[key].state != Missing)
    requires b == a.(shards := a.shards[key := a.shards[key].(state := state)])
    ensures SameReads(a, b, hash)
  {
    hide ReadShard;
    assert key == ShardKey(key.stripe, key.idx);
  }

  /** Two sets of files that differ at most in the files of some stripes. */
  ghost predicate FilesOutside(a: map<Path, Slot>, b: map<Path, Slot>, touched: set<StripeId>) {
    forall p: Path :: p.stripe !in touched ==> (p in a <==> p in b) && (p in a ==> b[p] == a[p])
  }

  ghost predicate RowsOutside(a: map<ShardKey, ShardRow>, b: map<ShardKey, ShardRow>, touched: set<StripeId>) {
    forall key: ShardKey :: key.stripe !in touched && key in a ==> key in b && b[key] == a[key]
  }

  /** The files and rows of all other stripes are the same, and no row appears or goes. */
  ghost predicate Elsewhere(a: View, b: View, touched: set<StripeId>) {
    FilesOutside(a.files, b.files, touched) && RowsOutside(a.shards, b.shards, touched)
    && a.shards.Keys == b.shards.Keys
  }

  lemma ElsewhereSame(a: View, touched: set<StripeId>)
    ensures Elsewhere(a, a, touched)
  {}

  lemma ElsewhereIn(a: View, b: View, touched: set<StripeId>, more: set<StripeId>)
    requires Elsewhere(a, b, touched) && touched <= more
    ensures Elsewhere(a, b, more)
  {}

  lemma ElsewhereTrans(a: View, b: View, c: View, t: set<StripeId>, more: set<StripeId>)
    requires Elsewhere(a, b, t) && Elsewhere(b, c, more) && t <= more
    ensures Elsewhere(a, c, more)
  {}

  lemma FilesTrans(a: map<Path, Slot>, b: map<Path, Slot>, c: map<Path, Slot>, t: set<StripeId>)
    requires FilesOutside(a, b, t) && FilesOutside(b, c, t)
    ensures FilesOutside(a, c, t)
  {}

  /** Touching the files and rows of other stripes spares a stripe. */
  lemma OutsideSpares(a: View, b: View, hash: Vec -> Checksum, touched: set<StripeId>, keep: set<StripeId>)
    requires Worn(a.disks, b.disks) && FilesOutside(a.files, b.files, touched)
             && RowsOutside(a.shards, b.shards, touched)
    requires keep !! touched
    ensures Spares(a, b, hash, keep)
  {
    forall s: StripeId, i: nat | s in keep && a.Read(hash, s, i).Some?
      ensures b.Read(hash, s, i) == a.Read(hash, s, i)
    {
      assert ShardKey(s, i) in a.shards;
    }
  }
}
