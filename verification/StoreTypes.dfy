/** Rows, shard files and the outcome of reading one shard. */
module StoreTypes {
  import opened Wrappers
  import opened LinearAlgebra
  import opened Cauchy
  import opened Codec

  type DiskId = nat
  type ObjectId = nat
  type StripeId = nat
  type Key = string
  type Checksum = nat

  datatype DiskStatus = Online | Degraded | Failed | Rebuilding | Retired
  datatype Disk = Disk(status: DiskStatus, errors: nat, free: nat)

  predicate Writable(s: DiskStatus) { s.Online? || s.Rebuilding? }
  predicate Readable(s: DiskStatus) { s.Online? || s.Degraded? || s.Rebuilding? }

  function WithStatus(disks: map<DiskId, Disk>, d: DiskId, status: DiskStatus): map<DiskId, Disk> {
    if d in disks then disks[d := disks[d].(status := status)] else disks
  }

  datatype ObjectRow = ObjectRow(key: Key, size: nat, stripeCount: nat, committed: bool)

  datatype StripeState = Pending | Committed | Unrecoverable
  datatype StripeRow = StripeRow(owner: ObjectId, seqno: nat, k: nat, m: nat, size: nat, offset: nat, len: nat,
                                 state: StripeState, scrubbed: nat)

  datatype ShardState = Fine | Missing | Corrupt
  datatype ShardRow = ShardRow(disk: Option<DiskId>, checksum: Option<Checksum>, state: ShardState)
  datatype ShardKey = ShardKey(stripe: StripeId, idx: nat)

  datatype ShardHeader = ShardHeader(index: nat, k: nat, m: nat, stripe: StripeId, length: nat, checksum: Checksum,
                                     seqno: nat, offset: nat, len: nat, key: Key)

  /** What a shard path holds: an operation on it fails, or a file whose header may be unreadable. */
  datatype Slot = Faulty | File(header: Option<ShardHeader>, payload: Vec)
  datatype Path = Path(disk: DiskId, stripe: StripeId, idx: nat)

  datatype ReadOutcome = Payload(bytes: Vec) | IsMissing | IsCorrupt | IsFaulty

  /** Read and verify one shard file: identity, length and checksum must all agree. */
  function ReadShard(files: map<Path, Slot>, hash: Vec -> Checksum, at: Path, expected: Option<Checksum>): ReadOutcome {
    if at !in files then IsMissing
    else if files[at].Faulty? then IsFaulty
    else if files[at].header.None? then IsCorrupt
    else
      var h, p := files[at].header.value, files[at].payload;
      if h.stripe != at.stripe || h.index != at.idx then IsCorrupt
      else if |p| != h.length then IsCorrupt
      else if hash(p) != h.checksum || (expected.Some? && hash(p) != expected.value) then IsCorrupt
      else Payload(p)
  }

  /** No file access is made for a row that is known missing or whose disk cannot be read. */
  predicate Attempted(disks: map<DiskId, Disk>, row: ShardRow) {
    row.disk.Some? && row.disk.value in disks && Readable(disks[row.disk.value].status) && row.state != Missing
  }

  function TryRead(disks: map<DiskId, Disk>, files: map<Path, Slot>, hash: Vec -> Checksum, s: StripeId, i: nat,
                   row: ShardRow): Option<Vec>
  {
    if !Attempted(disks, row) then None
    else
      match ReadShard(files, hash, Path(row.disk.value, s, i), row.checksum)
      case Payload(p) => Some(p)
      case _ => None
  }

  /** The health that an attempt to read leaves in the shard's row. */
  function Observed(disks: map<DiskId, Disk>, files: map<Path, Slot>, hash: Vec -> Checksum, s: StripeId, i: nat,
                    row: ShardRow): ShardState
  {
    if !Attempted(disks, row) then row.state
    else
      match ReadShard(files, hash, Path(row.disk.value, s, i), row.checksum)
      case IsMissing => Missing
      case IsCorrupt => Corrupt
      case _ => row.state
  }

  /** An attempt to read makes the disk report an error. */
  predicate ReadFaults(disks: map<DiskId, Disk>, files: map<Path, Slot>, hash: Vec -> Checksum, s: StripeId, i: nat,
                       row: ShardRow)
  {
    Attempted(disks, row) && ReadShard(files, hash, Path(row.disk.value, s, i), row.checksum).IsFaulty?
  }

  function Min(a: nat, b: nat): nat {
    if a < b then a else b
  }

  ghost predicate Injective(hash: Vec -> Checksum) {
    forall a, b :: hash(a) == hash(b) ==> a == b
  }

  // ---------------------------------------------------------------- a stripe's shards

  /** Every shard row of the stripe exists and records the checksum of the shard that
      encoding the stripe's data gives; a row without checksum is a missing shard. */
  ghost predicate StripeOk(row: StripeRow, data: Vec, s: StripeId, shards: map<ShardKey, ShardRow>,
                           hash: Vec -> Checksum)
  {
    Fits(row, data)
    && forall i :: 0 <= i < row.k + row.m ==> RowOk(row, data, s, i, shards, hash)
  }

  ghost predicate Fits(row: StripeRow, data: Vec) {
    ValidParameters(row.k, row.m) && |data| == row.len <= row.k * row.size
  }

  ghost predicate RowOk(row: StripeRow, data: Vec, s: StripeId, i: nat, shards: map<ShardKey, ShardRow>,
                        hash: Vec -> Checksum)
    requires Fits(row, data) && i < row.k + row.m
  {
    ShardKey(s, i) in shards
    && (shards[ShardKey(s, i)].checksum == Some(hash(ShardOf(row, data, i)))
        || (shards[ShardKey(s, i)].checksum.None? && shards[ShardKey(s, i)].state == Missing))
  }

  ghost function ShardOf(row: StripeRow, data: Vec, i: nat): (r: Vec)
    requires Fits(row, data) && i < row.k + row.m
    ensures |r| == row.size && IsShard(r, i, data, row.k, row.m, row.size)
  {
    Encoded(row.k, row.m, Codec.Shards(data, row.k, row.size), row.size)[i]
  }

  /** The disks, the files on them and the shard table: all that reading depends on. */
  datatype View = View(disks: map<DiskId, Disk>, files: map<Path, Slot>, shards: map<ShardKey, ShardRow>) {
    function Read(hash: Vec -> Checksum, s: StripeId, i: nat): Option<Vec> {
      if ShardKey(s, i) in shards then TryRead(disks, files, hash, s, i, shards[ShardKey(s, i)]) else None
    }

    /** The verifiable shards of a stripe among the first n. */
    ghost function Good(hash: Vec -> Checksum, s: StripeId, n: nat): (r: map<nat, Vec>)
      ensures forall i: nat :: i in r <==> i < n && Read(hash, s, i).Some?
      ensures forall i :: i in r ==> r[i] == Read(hash, s, i).value
    {
      map i: nat | i < n && Read(hash, s, i).Some? :: Read(hash, s, i).value
    }
  }

  /** Without checksum collisions, a shard that verifies is the shard that was encoded. */
  lemma VerifiedIsEncoded(row: StripeRow, data: Vec, s: StripeId, i: nat, v: View, hash: Vec -> Checksum)
    requires Injective(hash) && StripeOk(row, data, s, v.shards, hash) && i < row.k + row.m
    requires v.Read(hash, s, i).Some?
    ensures v.Read(hash, s, i).value == ShardOf(row, data, i)
  {
    assert RowOk(row, data, s, i, v.shards, hash);
  }

  lemma GoodFromStripe(row: StripeRow, data: Vec, s: StripeId, n: nat, v: View, hash: Vec -> Checksum)
    requires Injective(hash) && StripeOk(row, data, s, v.shards, hash) && n <= row.k + row.m
    ensures FromStripe(v.Good(hash, s, n), data, row.k, row.m, row.size)
    ensures ShardMap(v.Good(hash, s, n), row.k, row.m, row.size)
  {
    hide ShardOf;
    forall i | i in v.Good(hash, s, n)
      ensures IsShard(v.Good(hash, s, n)[i], i, data, row.k, row.m, row.size)
      ensures |v.Good(hash, s, n)[i]| == row.size
    {
      VerifiedIsEncoded(row, data, s, i, v, hash);
    }
  }

  // ---------------------------------------------------------------- surviving disk losses

  /** No two of the stripe's rows name the same disk. */
  ghost predicate Apart(v: View, s: StripeId, n: nat) {
    forall i, j :: 0 <= i < j < n && ShardKey(s, i) in v.shards && ShardKey(s, j) in v.shards
                   && v.shards[ShardKey(s, i)].disk.Some?
                   ==> v.shards[ShardKey(s, i)].disk != v.shards[ShardKey(s, j)].disk
  }

  /** The disks of lost are gone; the others, their files and the rows are as they were. */
  ghost predicate DisksLost(before: View, after: View, lost: set<DiskId>) {
    (forall d :: d in before.disks && d !in lost ==> d in after.disks && after.disks[d] == before.disks[d])
    && (forall p :: p in before.files && p.disk !in lost ==> p in after.files && after.files[p] == before.files[p])
    && after.shards == before.shards
  }

  /** A stripe whose shards are on different disks loses at most one shard with each disk. */
  lemma SurvivesLosses(before: View, after: View, hash: Vec -> Checksum, s: StripeId, n: nat, lost: set<DiskId>)
    requires Apart(before, s, n) && DisksLost(before, after, lost)
    ensures |after.Good(hash, s, n)| + |lost| >= |before.Good(hash, s, n)|
  {
    hide Apart, DisksLost, HitAt, View.Read;
    var good, hit := before.Good(hash, s, n), Hit(before, s, n, lost);
    HitSize(before, s, n, lost);
    forall i | i in good && i !in hit
      ensures i in after.Good(hash, s, n)
    {
      MissedStays(before, after, hash, s, i, lost);
    }
    assert good.Keys <= after.Good(hash, s, n).Keys + hit;
    UnionSize(good.Keys, after.Good(hash, s, n).Keys, hit);
  }

  lemma MissedStays(before: View, after: View, hash: Vec -> Checksum, s: StripeId, i: nat, lost: set<DiskId>)
    requires DisksLost(before, after, lost) && before.Read(hash, s, i).Some? && !HitAt(before, s, i, lost)
    ensures after.Read(hash, s, i).Some?
  {}

  ghost function Range(n: nat): (r: set<nat>)
    ensures |r| == n && forall i: nat :: i in r <==> i < n
  {
    if n == 0 then {} else Range(n - 1) + {n - 1}
  }

  /** The shards whose rows name a lost disk. */
  ghost function Hit(v: View, s: StripeId, n: nat, lost: set<DiskId>): (r: set<nat>)
    ensures forall i: nat :: i in r <==> i < n && HitAt(v, s, i, lost)
  {
    if n == 0 then {} else Hit(v, s, n - 1, lost) + (if HitAt(v, s, n - 1, lost) then {n - 1} else {})
  }

  ghost predicate HitAt(v: View, s: StripeId, i: nat, lost: set<DiskId>) {
    ShardKey(s, i) in v.shards && v.shards[ShardKey(s, i)].disk.Some? && v.shards[ShardKey(s, i)].disk.value in lost
  }

  /** The last row's disk is named by no row before it. */
  lemma LastApart(v: View, s: StripeId, n: nat, i: nat, d: DiskId, lost: set<DiskId>)
    requires Apart(v, s, n) && i < n - 1 && HitAt(v, s, n - 1, {d})
    ensures HitAt(v, s, i, lost - {d}) <==> HitAt(v, s, i, lost)
  {}

  lemma HitDisk(v: View, s: StripeId, i: nat, lost: set<DiskId>) returns (d: DiskId)
    requires HitAt(v, s, i, lost)
    ensures d in lost && HitAt(v, s, i, {d})
  {
    d := v.shards[ShardKey(s, i)].disk.value;
  }

  lemma SameHits(v: View, s: StripeId, n: nat, d: DiskId, lost: set<DiskId>)
    requires Apart(v, s, n + 1) && HitAt(v, s, n, {d})
    ensures Hit(v, s, n, lost - {d}) == Hit(v, s, n, lost)
  {
    hide Apart, HitAt, Hit;
    forall i: nat | i < n
      ensures HitAt(v, s, i, lost - {d}) <==> HitAt(v, s, i, lost)
    {
      LastApart(v, s, n + 1, i, d, lost);
    }
  }

  lemma {:induction false} HitSize(v: View, s: StripeId, n: nat, lost: set<DiskId>)
    requires Apart(v, s, n)
    ensures |Hit(v, s, n, lost)| <= |lost|
    decreases n
  {
    hide Apart, HitAt;
    if n != 0 {
      ApartLess(v, s, n);
      if HitAt(v, s, n - 1, lost) {
        var d := HitDisk(v, s, n - 1, lost);
        HitSize(v, s, n - 1, lost - {d});
        SameHits(v, s, n - 1, d, lost);
      } else {
        HitSize(v, s, n - 1, lost);
      }
    }
  }

  lemma ApartLess(v: View, s: StripeId, n: nat)
    requires n > 0 && Apart(v, s, n)
    ensures Apart(v, s, n - 1)
  {}

  lemma UnionSize<T>(all: set<T>, a: set<T>, b: set<T>)
    requires all <= a + b
    ensures |all| <= |a| + |b|
  {
    SubsetSize(all, a + b);
    assert a + b == a + (b - a);
    SubsetSize(b - a, b);
  }

  lemma SubsetSize<T>(a: set<T>, b: set<T>)
    requires a <= b
    ensures |a| <= |b|
  {
    assert b == a + (b - a);
  }
}
