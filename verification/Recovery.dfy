/** Rebuilding the index of a lost database from the shard files on the disks. */
module Recovery {
  import opened Wrappers
  import opened LinearAlgebra
  import opened StoreTypes
  import opened StoreState
  import opened StoreSteps
  import opened StoreViews
  import opened StoreReading
  import opened StoreWriting
  import opened Sequences

  /** What a shard header says about its stripe. */
  datatype Meta = Meta(key: Key, k: nat, m: nat, seqno: nat, offset: nat, len: nat, size: nat)
  datatype Place = Place(disk: DiskId, checksum: Checksum)

  function MetaOf(h: ShardHeader): Meta {
    Meta(h.key, h.k, h.m, h.seqno, h.offset, h.len, h.length)
  }

  /** A file on a readable disk whose header can be read and names a key. */
  predicate Listed(disks: map<DiskId, Disk>, files: map<Path, Slot>, p: Path) {
    p in files && p.disk in disks && Readable(disks[p.disk].status)
    && files[p].File? && files[p].header.Some? && files[p].header.value.key != ""
  }

  function HeaderAt(disks: map<DiskId, Disk>, files: map<Path, Slot>, p: Path): ShardHeader
    requires Listed(disks, files, p)
  {
    files[p].header.value
  }

  function KeyAt(disks: map<DiskId, Disk>, files: map<Path, Slot>, p: Path): ShardKey
    requires Listed(disks, files, p)
  {
    ShardKey(HeaderAt(disks, files, p).stripe, HeaderAt(disks, files, p).index)
  }

  // ---------------------------------------------------------------- scanning

  /** The scan has taken in exactly the files of done; of several copies it keeps the one on the first disk. */
  ghost predicate Scanned(disks: map<DiskId, Disk>, files: map<Path, Slot>, done: set<Path>, found: map<StripeId, Meta>,
                          located: map<ShardKey, Place>)
  {
    AllFound(disks, files, done, found) && AllLocated(disks, files, done, located)
    && Covered(disks, files, done, found, located)
  }

  ghost predicate AllFound(disks: map<DiskId, Disk>, files: map<Path, Slot>, done: set<Path>,
                           found: map<StripeId, Meta>) {
    forall s :: s in found ==> IsFound(disks, files, done, s, found[s])
  }

  ghost predicate IsFound(disks: map<DiskId, Disk>, files: map<Path, Slot>, done: set<Path>, s: StripeId, meta: Meta) {
    exists p :: FoundAt(disks, files, done, s, meta, p)
  }

  ghost predicate AllLocated(disks: map<DiskId, Disk>, files: map<Path, Slot>, done: set<Path>,
                             located: map<ShardKey, Place>) {
    forall key :: key in located ==> IsLocated(disks, files, done, key, located[key])
  }

  ghost predicate IsLocated(disks: map<DiskId, Disk>, files: map<Path, Slot>, done: set<Path>, key: ShardKey,
                            at: Place) {
    exists p :: LocatedAt(disks, files, done, key, at, p)
  }

  ghost predicate Covered(disks: map<DiskId, Disk>, files: map<Path, Slot>, done: set<Path>, found: map<StripeId, Meta>,
                          located: map<ShardKey, Place>)
  {
    forall p :: p in done && Listed(disks, files, p) ==>
      HeaderAt(disks, files, p).stripe in found && KeyAt(disks, files, p) in located
      && located[KeyAt(disks, files, p)].disk <= p.disk
  }

  ghost predicate FoundAt(disks: map<DiskId, Disk>, files: map<Path, Slot>, done: set<Path>, s: StripeId, meta: Meta,
                          p: Path) {
    p in done && Listed(disks, files, p) && HeaderAt(disks, files, p).stripe == s
        && meta == MetaOf(HeaderAt(disks, files, p))
  }

  ghost predicate LocatedAt(disks: map<DiskId, Disk>, files: map<Path, Slot>, done: set<Path>, key: ShardKey, at: Place,
                            p: Path) {
    p in done && Listed(disks, files, p) && KeyAt(disks, files, p) == key
    && at == Place(p.disk, HeaderAt(disks, files, p).checksum)
  }

  /** Take in one file: the first mention of a stripe or a shard counts. */
  function WithFound(found: map<StripeId, Meta>, h: ShardHeader): map<StripeId, Meta> {
    if h.stripe in found then found else found[h.stripe := MetaOf(h)]
  }

  function WithLocated(located: map<ShardKey, Place>, h: ShardHeader, d: DiskId): map<ShardKey, Place> {
    if ShardKey(h.stripe, h.index) in located then located
    else located[ShardKey(h.stripe, h.index) := Place(d, h.checksum)]
  }

  lemma FoundMore(disks: map<DiskId, Disk>, files: map<Path, Slot>, done: set<Path>, more: set<Path>,
                  found: map<StripeId, Meta>)
    requires AllFound(disks, files, done, found) && done <= more
    ensures AllFound(disks, files, more, found)
  {
    hide Listed, HeaderAt;
    forall s | s in found
      ensures IsFound(disks, files, more, s, found[s])
    {
      var q :| FoundAt(disks, files, done, s, found[s], q);
      assert FoundAt(disks, files, more, s, found[s], q);
    }
  }

  lemma LocatedMore(disks: map<DiskId, Disk>, files: map<Path, Slot>, done: set<Path>, more: set<Path>,
                    located: map<ShardKey, Place>)
    requires AllLocated(disks, files, done, located) && done <= more
    ensures AllLocated(disks, files, more, located)
  {
    hide Listed, HeaderAt, KeyAt;
    forall key | key in located
      ensures IsLocated(disks, files, more, key, located[key])
    {
      var q :| LocatedAt(disks, files, done, key, located[key], q);
      assert LocatedAt(disks, files, more, key, located[key], q);
    }
  }

  lemma ScannedListed(disks: map<DiskId, Disk>, files: map<Path, Slot>, done: set<Path>, found: map<StripeId, Meta>,
                      located: map<ShardKey, Place>, p: Path)
    requires Scanned(disks, files, done, found, located) && Listed(disks, files, p)
    requires forall q :: q in done ==> q.disk <= p.disk
    ensures var h := HeaderAt(disks, files, p);
            Scanned(disks, files, done + {p}, WithFound(found, h), WithLocated(located, h, p.disk))
  {
    hide Listed, IsFound, IsLocated, HeaderAt;
    var h, more := HeaderAt(disks, files, p), done + {p};
    FoundMore(disks, files, done, more, found);
    LocatedMore(disks, files, done, more, located);
    FoundHere(disks, files, more, p);
    FirstDisk(disks, files, done, located, p);
  }

  lemma FoundHere(disks: map<DiskId, Disk>, files: map<Path, Slot>, done: set<Path>, p: Path)
    requires Listed(disks, files, p) && p in done
    ensures var h := HeaderAt(disks, files, p);
            IsFound(disks, files, done, h.stripe, MetaOf(h))
            && IsLocated(disks, files, done, ShardKey(h.stripe, h.index), Place(p.disk, h.checksum))
  {
    var h := HeaderAt(disks, files, p);
    assert FoundAt(disks, files, done, h.stripe, MetaOf(h), p);
    assert LocatedAt(disks, files, done, ShardKey(h.stripe, h.index), Place(p.disk, h.checksum), p);
  }

  lemma FirstDisk(disks: map<DiskId, Disk>, files: map<Path, Slot>, done: set<Path>, located: map<ShardKey, Place>,
                  p: Path)
    requires AllLocated(disks, files, done, located)
    requires Listed(disks, files, p) && forall q :: q in done ==> q.disk <= p.disk
    ensures KeyAt(disks, files, p) in located ==> located[KeyAt(disks, files, p)].disk <= p.disk
  {
    hide Listed, HeaderAt;
    var key := KeyAt(disks, files, p);
    if key in located {
      assert IsLocated(disks, files, done, key, located[key]);
    }
  }

  lemma ScannedSkipped(disks: map<DiskId, Disk>, files: map<Path, Slot>, done: set<Path>, found: map<StripeId, Meta>,
                       located: map<ShardKey, Place>, p: Path)
    requires Scanned(disks, files, done, found, located) && !Listed(disks, files, p)
    ensures Scanned(disks, files, done + {p}, found, located)
  {
    hide Listed, HeaderAt, AllFound, AllLocated, KeyAt;
    FoundMore(disks, files, done, done + {p}, found);
    LocatedMore(disks, files, done, done + {p}, located);
  }

  function OnDisks(files: map<Path, Slot>, ids: set<DiskId>): set<Path> {
    set p | p in files && p.disk in ids
  }

  method FirstOf(ids: set<DiskId>) returns (d: DiskId)
    requires ids != {}
    ensures d in ids && forall c :: c in ids ==> d <= c
  {
    d :| d in ids;
    var rest := ids - {d};
    while rest != {}
      invariant rest <= ids && d in ids && forall c :: c in ids && c !in rest ==> d <= c
      decreases rest
    {
      var c :| c in rest;
      d := if c < d then c else d;
      rest := rest - {c};
    }
  }

  /** Read the header of every shard file, disk after disk in order of their ids. */
  method Scan(disks: map<DiskId, Disk>, files: map<Path, Slot>)
    returns (found: map<StripeId, Meta>, located: map<ShardKey, Place>)
    ensures Scanned(disks, files, files.Keys, found, located)
  {
    hide Scanned, Listed, HeaderAt;
    found, located := map[], map[];
    var left := set d | d in disks && Readable(disks[d].status);
    ghost var done: set<Path> := {};
    NothingScanned(disks, files);
    while left != {}
      invariant Scanned(disks, files, done, found, located) && done <= files.Keys
      invariant forall p, d :: p in done && d in left ==> p.disk < d
      invariant forall p :: p in files && p !in done && Listed(disks, files, p) ==> p.disk in left
      decreases left
    {
      var d := FirstOf(left);
      var paths := OnDisks(files, {d});
      while paths != {}
        invariant Scanned(disks, files, done, found, located) && done <= files.Keys && paths <= OnDisks(files, {d})
        invariant forall p, c :: p in done && c in left ==> p.disk <= c && (p.disk < c || c == d)
        invariant forall p :: p in files && p !in done && Listed(disks, files, p) ==> p in paths || p.disk in left - {d}
        decreases paths
      {
        var p :| p in paths;
        if Listed(disks, files, p) {
          ScannedListed(disks, files, done, found, located, p);
          var h := HeaderAt(disks, files, p);
          found, located := WithFound(found, h), WithLocated(located, h, p.disk);
        } else {
          ScannedSkipped(disks, files, done, found, located, p);
        }
        done, paths := done + {p}, paths - {p};
      }
      left := left - {d};
    }
    ScannedRest(disks, files, done, found, located);
  }

  lemma NothingScanned(disks: map<DiskId, Disk>, files: map<Path, Slot>)
    ensures Scanned(disks, files, {}, map[], map[])
    ensures forall p :: Listed(disks, files, p) ==> p.disk in disks && Readable(disks[p.disk].status)
  {}

  lemma ScannedRest(disks: map<DiskId, Disk>, files: map<Path, Slot>, done: set<Path>, found: map<StripeId, Meta>,
                    located: map<ShardKey, Place>)
    requires Scanned(disks, files, done, found, located) && done <= files.Keys
    requires forall p :: p in files && p !in done ==> !Listed(disks, files, p)
    ensures Scanned(disks, files, files.Keys, found, located)
  {
    hide Listed, HeaderAt, AllFound, AllLocated, KeyAt;
    FoundMore(disks, files, done, files.Keys, found);
    LocatedMore(disks, files, done, files.Keys, located);
  }

  // ---------------------------------------------------------------- tables

  /** The stripes that name a key. */
  function Group(found: map<StripeId, Meta>, key: Key): (r: set<StripeId>)
    ensures r <= found.Keys
  {
    set s | s in found && found[s].key == key
  }

  function RowFrom(meta: Meta, owner: ObjectId): StripeRow {
    StripeRow(owner, meta.seqno, meta.k, meta.m, meta.size, meta.offset, meta.len, Committed, 0)
  }

  function RowKeys(found: map<StripeId, Meta>, ids: set<StripeId>): set<ShardKey> {
    set s, i: nat | s in ids && s in found && i < found[s].k + found[s].m :: ShardKey(s, i)
  }

  /** A shard row for every position: where the shard was seen, or missing. */
  function RowsFor(found: map<StripeId, Meta>, located: map<ShardKey, Place>,
                   ids: set<StripeId>): map<ShardKey, ShardRow> {
    map key | key in RowKeys(found, ids) ::
      if key in located then
        ShardRow(Some(located[key].disk), Some(located[key].checksum), if located[key].disk != 0 then Fine else Missing)
      else ShardRow(None, None, Missing)
  }

  ghost predicate IsEnd(found: map<StripeId, Meta>, ids: set<StripeId>, size: nat) {
    (forall s :: s in ids && s in found ==> found[s].offset + found[s].len <= size)
    && exists s :: s in ids && s in found && found[s].offset + found[s].len == size
  }

  /** The stripes of done have their rows, each under the object with its key. */
  ghost predicate StripesIndexed(found: map<StripeId, Meta>, done: set<StripeId>, objects: map<ObjectId, ObjectRow>,
                                 stripes: map<StripeId, StripeRow>)
  {
    stripes.Keys == done && done <= found.Keys
    && forall s :: s in done ==> StripeIndexed(found, objects, stripes, s)
  }

  ghost predicate StripeIndexed(found: map<StripeId, Meta>, objects: map<ObjectId, ObjectRow>,
                                stripes: map<StripeId, StripeRow>, s: StripeId)
  {
    s in stripes && s in found && stripes[s].owner in objects && stripes[s] == RowFrom(found[s], stripes[s].owner)
    && objects[stripes[s].owner].key == found[s].key
  }

  /** Every object stands for all the stripes of its key, and no two for the same key. */
  ghost predicate ObjectsIndexed(found: map<StripeId, Meta>, done: set<StripeId>, objects: map<ObjectId, ObjectRow>) {
    (forall o :: o in objects ==> ObjectFrom(found, done, objects[o]))
    && (forall o, p :: o in objects && p in objects && o != p ==> objects[o].key != objects[p].key)
  }

  ghost predicate ObjectFrom(found: map<StripeId, Meta>, done: set<StripeId>, row: ObjectRow) {
    row.committed && Group(found, row.key) != {} && Group(found, row.key) <= done
    && row.stripeCount == |Group(found, row.key)| && IsEnd(found, Group(found, row.key), row.size)
  }

  ghost predicate Indexed(found: map<StripeId, Meta>, located: map<ShardKey, Place>, done: set<StripeId>,
                          objects: map<ObjectId, ObjectRow>, stripes: map<StripeId, StripeRow>,
                          shards: map<ShardKey, ShardRow>)
  {
    StripesIndexed(found, done, objects, stripes) && ObjectsIndexed(found, done, objects)
    && shards == RowsFor(found, located, done)
  }

  method LargestEnd(found: map<StripeId, Meta>, ids: set<StripeId>) returns (size: nat)
    requires ids != {} && ids <= found.Keys
    ensures IsEnd(found, ids, size)
  {
    var last :| last in ids;
    size := found[last].offset + found[last].len;
    var rest := ids - {last};
    while rest != {}
      invariant rest <= ids && last in ids && size == found[last].offset + found[last].len
      invariant forall s :: s in ids && s !in rest ==> found[s].offset + found[s].len <= size
      decreases rest
    {
      var s :| s in rest;
      if found[s].offset + found[s].len > size {
        last, size := s, found[s].offset + found[s].len;
      }
      rest := rest - {s};
    }
  }

  function StripeRows(found: map<StripeId, Meta>, ids: set<StripeId>, owner: ObjectId): map<StripeId, StripeRow>
    requires ids <= found.Keys
  {
    map s | s in ids :: RowFrom(found[s], owner)
  }

  lemma RowsJoin(found: map<StripeId, Meta>, located: map<ShardKey, Place>, a: set<StripeId>, b: set<StripeId>)
    ensures RowsFor(found, located, a + b) == RowsFor(found, located, a) + RowsFor(found, located, b)
  {
    assert RowKeys(found, a + b) == RowKeys(found, a) + RowKeys(found, b);
    hide RowKeys;
  }

  lemma StripesNext(found: map<StripeId, Meta>, done: set<StripeId>, objects: map<ObjectId, ObjectRow>,
                    stripes: map<StripeId, StripeRow>, key: Key, size: nat, o: ObjectId)
    requires StripesIndexed(found, done, objects, stripes) && o !in objects && Group(found, key) !! done
    ensures StripesIndexed(found, done + Group(found, key),
                           objects[o := ObjectRow(key, size, |Group(found, key)|, true)],
                           stripes + StripeRows(found, Group(found, key), o))
  {
    hide StripeIndexed, Group, RowFrom, StripeRows;
    var group := Group(found, key);
    var objects', stripes' := objects[o := ObjectRow(key, size, |group|, true)], stripes + StripeRows(found, group, o);
    NewRows(found, key, o);
    forall s | s in done + group
      ensures StripeIndexed(found, objects', stripes', s)
    {
      if s in group {
        NewStripeIndexed(found, objects', stripes', key, o, s);
      } else {
        OldStripeIndexed(found, objects, stripes, objects', stripes', s);
      }
    }
  }

  lemma NewRows(found: map<StripeId, Meta>, key: Key, o: ObjectId)
    ensures StripeRows(found, Group(found, key), o).Keys == Group(found, key)
    ensures forall s :: s in Group(found, key) ==> StripeRows(found, Group(found, key), o)[s] == RowFrom(found[s], o)
  {
    hide Group, RowFrom;
  }

  lemma NewStripeIndexed(found: map<StripeId, Meta>, objects: map<ObjectId, ObjectRow>,
                         stripes: map<StripeId, StripeRow>,
                         key: Key, o: ObjectId, s: StripeId)
    requires s in Group(found, key) && s in stripes && stripes[s] == RowFrom(found[s], o)
    requires o in objects && objects[o].key == key
    ensures StripeIndexed(found, objects, stripes, s)
  {}

  lemma OldStripeIndexed(found: map<StripeId, Meta>, a: map<ObjectId, ObjectRow>, s: map<StripeId, StripeRow>,
                         b: map<ObjectId, ObjectRow>, t: map<StripeId, StripeRow>, id: StripeId)
    requires StripeIndexed(found, a, s, id) && id in t && t[id] == s[id]
    requires forall o :: o in a ==> o in b && b[o] == a[o]
    ensures StripeIndexed(found, b, t, id)
  {}

  lemma ObjectsNext(found: map<StripeId, Meta>, done: set<StripeId>, objects: map<ObjectId, ObjectRow>, key: Key,
                    size: nat,
                    o: ObjectId)
    requires ObjectsIndexed(found, done, objects) && o !in objects
    requires Group(found, key) != {} && Group(found, key) !! done && IsEnd(found, Group(found, key), size)
    ensures ObjectsIndexed(found, done + Group(found, key),
                           objects[o := ObjectRow(key, size, |Group(found, key)|, true)])
  {
    hide IsEnd, Group;
    var group := Group(found, key);
    forall p | p in objects
      ensures objects[p].key != key && ObjectFrom(found, done + group, objects[p])
    {
      assert ObjectFrom(found, done, objects[p]);
    }
    assert ObjectFrom(found, done + group, ObjectRow(key, size, |group|, true));
    hide ObjectFrom;
  }

  lemma IndexedNext(found: map<StripeId, Meta>, located: map<ShardKey, Place>, done: set<StripeId>,
                    objects: map<ObjectId, ObjectRow>, stripes: map<StripeId, StripeRow>,
                    shards: map<ShardKey, ShardRow>,
                    key: Key, size: nat, o: ObjectId)
    requires Indexed(found, located, done, objects, stripes, shards) && o !in objects
    requires Group(found, key) <= found.Keys
    requires Group(found, key) != {} && Group(found, key) !! done && IsEnd(found, Group(found, key), size)
    ensures var group := Group(found, key);
            Indexed(found, located, done + group, objects[o := ObjectRow(key, size, |group|, true)],
                    stripes + StripeRows(found, group, o), shards + RowsFor(found, located, group))
  {
    hide StripesIndexed, ObjectsIndexed, RowsFor, IsEnd, Group, StripeRows;
    RowsJoin(found, located, done, Group(found, key));
    StripesNext(found, done, objects, stripes, key, size, o);
    ObjectsNext(found, done, objects, key, size, o);
  }

  lemma NothingIndexed(found: map<StripeId, Meta>, located: map<ShardKey, Place>)
    ensures Indexed(found, located, {}, map[], map[], map[])
  {}

  /** The stripes left over are all the stripes of their keys. */
  ghost predicate WholeGroups(found: map<StripeId, Meta>, rest: set<StripeId>) {
    forall s, t :: s in rest && s in found && t in found && found[t].key == found[s].key ==> t in rest
  }

  lemma WholeNext(found: map<StripeId, Meta>, rest: set<StripeId>, s: StripeId)
    requires WholeGroups(found, rest) && s in rest && s in found
    ensures s in Group(found, found[s].key) && Group(found, found[s].key) <= rest
    ensures WholeGroups(found, rest - Group(found, found[s].key))
  {}

  lemma AllWhole(found: map<StripeId, Meta>)
    ensures WholeGroups(found, found.Keys)
  {}

  /** Group the stripes by key and insert an object for each key, its stripes and their shards. */
  method BuildIndex(found: map<StripeId, Meta>, located: map<ShardKey, Place>)
    returns (objects: map<ObjectId, ObjectRow>, stripes: map<StripeId, StripeRow>, shards: map<ShardKey, ShardRow>)
    ensures Indexed(found, located, found.Keys, objects, stripes, shards)
  {
    hide *;
    objects, stripes, shards := map[], map[], map[];
    var rest, next := found.Keys, 1;
    ghost var done: set<StripeId> := {};
    NothingIndexed(found, located);
    AllWhole(found);
    while rest != {}
      invariant rest !! done && rest + done == found.Keys && Indexed(found, located, done, objects, stripes, shards)
      invariant forall o :: o in objects ==> o < next
      invariant WholeGroups(found, rest)
      decreases rest
    {
      var s :| s in rest;
      var key := found[s].key;
      var group := Group(found, key);
      WholeNext(found, rest, s);
      var size := LargestEnd(found, group);
      IndexedNext(found, located, done, objects, stripes, shards, key, size, next);
      objects := objects[next := ObjectRow(key, size, |group|, true)];
      stripes, shards := stripes + StripeRows(found, group, next), shards + RowsFor(found, located, group);
      done, rest, next := done + group, rest - group, next + 1;
    }
    assert done == found.Keys;
  }

  // ---------------------------------------------------------------- what the disks must hold

  /** A file on a readable disk whose header can be read. */
  predicate Headed(disks: map<DiskId, Disk>, files: map<Path, Slot>, p: Path) {
    p in files && p.disk in disks && Readable(disks[p.disk].status) && files[p].File? && files[p].header.Some?
  }

  /** The header tells the truth about its stripe, and the file lies under its own name. */
  ghost predicate Describes(a: State, hash: Vec -> Checksum, p: Path, h: ShardHeader) {
    h.stripe == p.stripe && h.index == p.idx && KnownStripe(a, h.stripe) && MetaOf(h) == MetaOfRow(a, h.stripe)
    && h.index < a.stripes[h.stripe].k + a.stripes[h.stripe].m
    && h.checksum == hash(ShardOf(a.stripes[h.stripe], a.content[h.stripe], h.index))
  }

  ghost predicate KnownStripe(a: State, s: StripeId) {
    s in a.stripes && s in a.content && a.stripes[s].owner in a.objects && Fits(a.stripes[s], a.content[s])
  }

  ghost function MetaOfRow(a: State, s: StripeId): Meta
    requires KnownStripe(a, s)
  {
    var row := a.stripes[s];
    Meta(a.objects[row.owner].key, row.k, row.m, row.seqno, row.offset, row.len, row.size)
  }

  /** Only files of the lost index's stripes are on the disks, and no stripe is entirely gone. */
  ghost predicate Clean(a: State, disks: map<DiskId, Disk>, files: map<Path, Slot>, hash: Vec -> Checksum) {
    (forall p :: Headed(disks, files, p) ==> Describes(a, hash, p, files[p].header.value))
    && (forall s :: s in a.stripes ==> Seen(disks, files, s))
  }

  ghost predicate Seen(disks: map<DiskId, Disk>, files: map<Path, Slot>, s: StripeId) {
    exists p :: Headed(disks, files, p) && p.stripe == s
  }

  /** Writing a shard of a stripe keeps the disks clean: the header it leaves tells the truth. */
  lemma WriteKeepsClean(a: State, disks: map<DiskId, Disk>, files: map<Path, Slot>, hash: Vec -> Checksum, s: StripeId,
                        i: nat, d: DiskId, row: StripeRow, key: Key)
    requires Clean(a, disks, files, hash) && KnownStripe(a, s) && i < a.stripes[s].k + a.stripes[s].m
    requires SameRow(row, a.stripes[s].(state := row.state)) && key == a.objects[row.owner].key
    ensures var payload := ShardOf(a.stripes[s], a.content[s], i);
            Clean(a, disks, files[Path(d, s, i) := File(Some(HeaderFor(row, s, i, payload, key, hash)), payload)], hash)
  {
    hide Clean, Describes, ShardOf, SameRow;
    var payload := ShardOf(a.stripes[s], a.content[s], i);
    HeaderDescribes(a, hash, s, i, d, row, key);
    CleanMore(a, disks, files, hash, Path(d, s, i), HeaderFor(row, s, i, payload, key, hash), payload);
  }

  lemma CleanMore(a: State, disks: map<DiskId, Disk>, files: map<Path, Slot>, hash: Vec -> Checksum, at: Path,
                  h: ShardHeader, payload: Vec)
    requires Clean(a, disks, files, hash) && Describes(a, hash, at, h)
    ensures Clean(a, disks, files[at := File(Some(h), payload)], hash)
  {
    hide Describes, Readable;
    forall t | t in a.stripes
      ensures Seen(disks, files[at := File(Some(h), payload)], t)
    {
      var p :| Headed(disks, files, p) && p.stripe == t;
      assert Headed(disks, files[at := File(Some(h), payload)], p);
    }
  }

  lemma HeaderDescribes(a: State, hash: Vec -> Checksum, s: StripeId, i: nat, d: DiskId, row: StripeRow, key: Key)
    requires KnownStripe(a, s) && i < a.stripes[s].k + a.stripes[s].m
    requires SameRow(row, a.stripes[s].(state := row.state)) && key == a.objects[row.owner].key
    ensures Describes(a, hash, Path(d, s, i),
                      HeaderFor(row, s, i, ShardOf(a.stripes[s], a.content[s], i), key, hash))
  {
    hide ShardOf;
  }

  /** Nothing was pending, every object has a key and at least one stripe. */
  ghost predicate Settled(a: State) {
    (forall o :: o in a.objects ==>
       a.objects[o].committed && a.objects[o].key != "" && o in a.layout && a.layout[o] != [])
    && (forall s :: s in a.stripes ==> !a.stripes[s].state.Pending?)
  }

  lemma ListedHeaded(a: State, disks: map<DiskId, Disk>, files: map<Path, Slot>, hash: Vec -> Checksum, p: Path)
    requires Clean(a, disks, files, hash) && Settled(a)
    ensures Listed(disks, files, p) <==> Headed(disks, files, p)
    ensures Listed(disks, files, p) ==> Describes(a, hash, p, HeaderAt(disks, files, p))
  {
    hide ShardOf;
    if Headed(disks, files, p) {
      assert Describes(a, hash, p, files[p].header.value);
    }
  }

  // ---------------------------------------------------------------- the scan finds the lost index

  lemma FoundRow(a: State, disks: map<DiskId, Disk>, files: map<Path, Slot>, hash: Vec -> Checksum,
                 found: map<StripeId, Meta>, located: map<ShardKey, Place>, s: StripeId)
    requires Clean(a, disks, files, hash) && Settled(a) && Scanned(disks, files, files.Keys, found, located)
             && s in found
    ensures KnownStripe(a, s) && found[s] == MetaOfRow(a, s)
  {
    hide Clean, Settled, Listed, HeaderAt, Covered;
    assert IsFound(disks, files, files.Keys, s, found[s]);
    var p :| FoundAt(disks, files, files.Keys, s, found[s], p);
    ListedHeaded(a, disks, files, hash, p);
  }

  lemma SeenFound(a: State, disks: map<DiskId, Disk>, files: map<Path, Slot>, hash: Vec -> Checksum,
                  found: map<StripeId, Meta>, located: map<ShardKey, Place>, s: StripeId)
    requires Clean(a, disks, files, hash) && Settled(a) && Scanned(disks, files, files.Keys, found, located)
    requires s in a.stripes
    ensures s in found
  {
    hide Settled, Listed, AllFound, AllLocated, Describes;
    assert Seen(disks, files, s);
    var p :| Headed(disks, files, p) && p.stripe == s;
    ListedHeaded(a, disks, files, hash, p);
    DescribesPath(a, hash, p, HeaderAt(disks, files, p));
    HeadedIn(disks, files, p);
  }

  lemma HeadedIn(disks: map<DiskId, Disk>, files: map<Path, Slot>, p: Path)
    requires Headed(disks, files, p)
    ensures p in files
  {}

  lemma DescribesPath(a: State, hash: Vec -> Checksum, p: Path, h: ShardHeader)
    requires Describes(a, hash, p, h)
    ensures h.stripe == p.stripe && h.index == p.idx
  {
    hide ShardOf;
  }

  lemma LocatedRow(a: State, disks: map<DiskId, Disk>, files: map<Path, Slot>, hash: Vec -> Checksum,
                   found: map<StripeId, Meta>, located: map<ShardKey, Place>, key: ShardKey)
    requires Clean(a, disks, files, hash) && Settled(a) && Scanned(disks, files, files.Keys, found, located)
    requires key in located
    ensures KnownStripe(a, key.stripe) && key.idx < a.stripes[key.stripe].k + a.stripes[key.stripe].m
    ensures located[key].checksum == hash(ShardOf(a.stripes[key.stripe], a.content[key.stripe], key.idx))
    ensures Headed(disks, files, Path(located[key].disk, key.stripe, key.idx))
  {
    hide Clean, Settled, Listed, AllFound, Covered, Headed, ShardOf, HeaderAt;
    assert IsLocated(disks, files, files.Keys, key, located[key]);
    var p :| LocatedAt(disks, files, files.Keys, key, located[key], p);
    ListedHeaded(a, disks, files, hash, p);
    assert p == Path(p.disk, key.stripe, key.idx);
  }

  // ---------------------------------------------------------------- the rebuilt index

  ghost predicate HasKey(a: State, key: Key) {
    exists o :: o in a.objects && a.objects[o].key == key
  }

  /** The lost object with this key. */
  ghost function LostObject(a: State, key: Key): (o: ObjectId)
    requires HasKey(a, key)
    ensures o in a.objects && a.objects[o].key == key
  {
    var o :| o in a.objects && a.objects[o].key == key;
    o
  }

  /** The rebuilt tables stand for the stripes that the lost ones stood for. */
  ghost function Rebuilt(a: State, objects: map<ObjectId, ObjectRow>, stripes: map<StripeId, StripeRow>,
                         shards: map<ShardKey, ShardRow>, files: set<Path>): State
  {
    State(objects, stripes, shards, a.content,
          map o | o in objects && HasKey(a, objects[o].key) && LostObject(a, objects[o].key) in a.layout
            :: a.layout[LostObject(a, objects[o].key)],
          a.used, files)
  }

  /** Everything the theorem is about: a lost index, clean disks, and what the recovery made of them. */
  ghost predicate Recovered(a: State, b: State, disks: map<DiskId, Disk>, files: map<Path, Slot>, hash: Vec -> Checksum,
                            found: map<StripeId, Meta>, located: map<ShardKey, Place>)
  {
    Consistent(a, hash) && Settled(a) && Clean(a, disks, files, hash)
    && Scanned(disks, files, files.Keys, found, located)
    && Indexed(found, located, found.Keys, b.objects, b.stripes, b.shards)
    && b == Rebuilt(a, b.objects, b.stripes, b.shards, files.Keys)
  }

  lemma StripesBack(a: State, b: State, disks: map<DiskId, Disk>, files: map<Path, Slot>, hash: Vec -> Checksum,
                    found: map<StripeId, Meta>, located: map<ShardKey, Place>)
    requires Recovered(a, b, disks, files, hash, found, located)
    ensures found.Keys == a.stripes.Keys == b.stripes.Keys
    ensures forall s :: s in found ==>
              KnownStripe(a, s) && found[s] == MetaOfRow(a, s) && StripeIndexed(found, b.objects, b.stripes, s)
    ensures b.content == a.content && b.used == a.used && b.written == files.Keys
    ensures b.shards == RowsFor(found, located, found.Keys)
  {
    hide Consistent, Settled, Clean, Scanned, ObjectsIndexed, RowsFor, KnownStripe, StripeIndexed, RowFrom;
    forall s
      ensures s in a.stripes <==> s in found
      ensures s in found ==> KnownStripe(a, s) && found[s] == MetaOfRow(a, s)
    {
      if s in found {
        FoundRow(a, disks, files, hash, found, located, s);
        KnownIn(a, s);
      } else if s in a.stripes {
        SeenFound(a, disks, files, hash, found, located, s);
      }
    }
    assert found.Keys == a.stripes.Keys;
  }

  lemma KnownIn(a: State, s: StripeId)
    requires KnownStripe(a, s)
    ensures s in a.stripes
  {}

  /** A recovered stripe is the lost one under a new object. */
  ghost predicate SameStripe(a: StripeRow, b: StripeRow) {
    b.seqno == a.seqno && b.k == a.k && b.m == a.m && b.size == a.size && b.offset == a.offset && b.len == a.len
    && b.state == Committed
  }

  lemma StripeBack(a: State, b: State, disks: map<DiskId, Disk>, files: map<Path, Slot>, hash: Vec -> Checksum,
                   found: map<StripeId, Meta>, located: map<ShardKey, Place>, s: StripeId)
    requires Recovered(a, b, disks, files, hash, found, located) && s in a.stripes
    ensures s in b.stripes && SameStripe(a.stripes[s], b.stripes[s]) && KnownStripe(a, s) && s in b.content
    ensures b.stripes[s].owner in b.objects && a.stripes[s].owner in a.objects
    ensures b.objects[b.stripes[s].owner].key == a.objects[a.stripes[s].owner].key
  {
    StripesBack(a, b, disks, files, hash, found, located);
    assert StripeIndexed(found, b.objects, b.stripes, s) && KnownStripe(a, s);
    hide Recovered;
  }

  lemma FitsBack(a: State, b: State, disks: map<DiskId, Disk>, files: map<Path, Slot>, hash: Vec -> Checksum,
                 found: map<StripeId, Meta>, located: map<ShardKey, Place>, s: StripeId)
    requires Recovered(a, b, disks, files, hash, found, located) && s in a.stripes
    ensures s in b.stripes && s in b.content && b.content[s] == a.content[s] && s in found && KnownStripe(a, s)
    ensures Fits(b.stripes[s], b.content[s]) && Fits(a.stripes[s], a.content[s])
            && SameStripe(a.stripes[s], b.stripes[s])
    ensures found[s].k == b.stripes[s].k == a.stripes[s].k && found[s].m == b.stripes[s].m == a.stripes[s].m
  {
    StripesBack(a, b, disks, files, hash, found, located);
    StripeBack(a, b, disks, files, hash, found, located, s);
    hide Recovered;
  }

  lemma RowOkBack(a: State, b: State, disks: map<DiskId, Disk>, files: map<Path, Slot>, hash: Vec -> Checksum,
                  found: map<StripeId, Meta>, located: map<ShardKey, Place>, s: StripeId, i: nat)
    requires Recovered(a, b, disks, files, hash, found, located) && s in a.stripes && s in b.stripes && s in b.content
    requires Fits(b.stripes[s], b.content[s]) && i < b.stripes[s].k + b.stripes[s].m
    ensures RowOk(b.stripes[s], b.content[s], s, i, b.shards, hash)
  {
    hide Recovered, ShardOf, RowsFor, Fits, StripeIndexed, KnownStripe, SameStripe;
    FitsBack(a, b, disks, files, hash, found, located, s);
    StripesBack(a, b, disks, files, hash, found, located);
    RowBack(found, located, s, i);
    if ShardKey(s, i) in located {
      LocatedBack(a, b, disks, files, hash, found, located, ShardKey(s, i));
      SameShards(a.stripes[s], b.stripes[s], a.content[s], i);
    }
  }

  lemma ShardsBack(a: State, b: State, disks: map<DiskId, Disk>, files: map<Path, Slot>, hash: Vec -> Checksum,
                   found: map<StripeId, Meta>, located: map<ShardKey, Place>, s: StripeId)
    requires Recovered(a, b, disks, files, hash, found, located) && s in a.stripes
    ensures s in b.stripes && s in b.content && StripeOk(b.stripes[s], b.content[s], s, b.shards, hash)
  {
    hide Recovered, RowOk, KnownStripe, SameStripe, Fits;
    FitsBack(a, b, disks, files, hash, found, located, s);
    forall i: nat | i < b.stripes[s].k + b.stripes[s].m
      ensures RowOk(b.stripes[s], b.content[s], s, i, b.shards, hash)
    {
      RowOkBack(a, b, disks, files, hash, found, located, s, i);
    }
  }

  lemma SameShards(a: StripeRow, b: StripeRow, data: Vec, i: nat)
    requires SameStripe(a, b) && Fits(a, data) && i < a.k + a.m
    ensures Fits(b, data) && ShardOf(b, data, i) == ShardOf(a, data, i)
  {}

  lemma RowBack(found: map<StripeId, Meta>, located: map<ShardKey, Place>, s: StripeId, i: nat)
    requires s in found && i < found[s].k + found[s].m
    ensures var rows := RowsFor(found, located, found.Keys); var key := ShardKey(s, i);
            key in rows
            && rows[key] == if key in located then
                              ShardRow(Some(located[key].disk), Some(located[key].checksum),
                                       if located[key].disk != 0 then Fine else Missing)
                            else ShardRow(None, None, Missing)
  {}

  lemma LocatedBack(a: State, b: State, disks: map<DiskId, Disk>, files: map<Path, Slot>, hash: Vec -> Checksum,
                    found: map<StripeId, Meta>, located: map<ShardKey, Place>, key: ShardKey)
    requires Recovered(a, b, disks, files, hash, found, located) && key in located
    ensures KnownStripe(a, key.stripe) && key.idx < a.stripes[key.stripe].k + a.stripes[key.stripe].m
    ensures located[key].checksum == hash(ShardOf(a.stripes[key.stripe], a.content[key.stripe], key.idx))
    ensures Path(located[key].disk, key.stripe, key.idx) in files
  {
    LocatedRow(a, disks, files, hash, found, located, key);
    HeadedIn(disks, files, Path(located[key].disk, key.stripe, key.idx));
  }

  lemma ShardRowBack(a: State, b: State, disks: map<DiskId, Disk>, files: map<Path, Slot>, hash: Vec -> Checksum,
                     found: map<StripeId, Meta>, located: map<ShardKey, Place>, key: ShardKey)
    requires Recovered(a, b, disks, files, hash, found, located) && key in b.shards
    ensures key.stripe in b.stripes && key.idx < b.stripes[key.stripe].k + b.stripes[key.stripe].m
    ensures b.shards[key].disk.Some? ==> Path(b.shards[key].disk.value, key.stripe, key.idx) in b.written
  {
    hide Recovered, RowsFor, StripeIndexed, KnownStripe, SameStripe, Fits;
    StripesBack(a, b, disks, files, hash, found, located);
    RowFound(found, located, key);
    FitsBack(a, b, disks, files, hash, found, located, key.stripe);
    RowBack(found, located, key.stripe, key.idx);
    if key in located {
      LocatedBack(a, b, disks, files, hash, found, located, key);
    }
  }

  lemma TablesBack(a: State, b: State, disks: map<DiskId, Disk>, files: map<Path, Slot>, hash: Vec -> Checksum,
                   found: map<StripeId, Meta>, located: map<ShardKey, Place>)
    requires Recovered(a, b, disks, files, hash, found, located)
    ensures ShardsOk(b) && KeysUnique(b)
  {
    hide Clean, Scanned, Settled, Consistent, RowsFor, StripesIndexed, Rebuilt;
    forall key | key in b.shards
      ensures key.stripe in b.stripes && key.idx < b.stripes[key.stripe].k + b.stripes[key.stripe].m
      ensures b.shards[key].disk.Some? ==> Path(b.shards[key].disk.value, key.stripe, key.idx) in b.written
    {
      ShardRowBack(a, b, disks, files, hash, found, located, key);
    }
  }

  lemma RowFound(found: map<StripeId, Meta>, located: map<ShardKey, Place>, key: ShardKey)
    requires key in RowsFor(found, located, found.Keys)
    ensures key.stripe in found && key.idx < found[key.stripe].k + found[key.stripe].m
            && key == ShardKey(key.stripe, key.idx)
  {}

  // ---------------------------------------------------------------- objects

  lemma {:induction false} FlattenPrefix(ids: seq<StripeId>, i: nat, content: map<StripeId, Vec>)
    requires i <= |ids| && forall j :: 0 <= j < |ids| ==> ids[j] in content
    ensures |Flatten(ids[..i], content)| <= |Flatten(ids, content)|
    decreases |ids|
  {
    if i < |ids| {
      FlattenPrefix(ids[..|ids| - 1], i, content);
      assert ids[..|ids| - 1][..i] == ids[..i];
    } else {
      assert ids[..i] == ids;
    }
  }

  /** The end of stripe i in its object, and where the object ends. */
  lemma EndOfPlace(a: State, hash: Vec -> Checksum, o: ObjectId, i: nat)
    requires ObjectOk(a, hash, o) && a.objects[o].committed && i < |a.layout[o]|
    ensures var ids := a.layout[o];
            ids[i] in a.stripes && a.stripes[ids[i]].seqno == i && a.stripes[ids[i]].owner == o
            && (forall j :: 0 <= j < |ids| ==> ids[j] in a.content)
            && a.stripes[ids[i]].offset + a.stripes[ids[i]].len <= |Flatten(ids, a.content)|
            && (i == |ids| - 1 ==> a.stripes[ids[i]].offset + a.stripes[ids[i]].len == |Flatten(ids, a.content)|)
  {
    hide StripeOk, Flatten;
    var ids := a.layout[o];
    assert PlaceOk(a, hash, o, ids, i);
    StripeLength(a.stripes[ids[i]], a.content[ids[i]], ids[i], a.shards, hash);
    FlattenNext(ids, i, a.content);
    FlattenPrefix(ids, i + 1, a.content);
    assert i == |ids| - 1 ==> ids[..i + 1] == ids;
  }

  lemma StripeLength(row: StripeRow, data: Vec, s: StripeId, shards: map<ShardKey, ShardRow>, hash: Vec -> Checksum)
    requires StripeOk(row, data, s, shards, hash)
    ensures row.len == |data|
  {}

  lemma {:induction false} DistinctSize(ids: seq<StripeId>)
    requires forall i, j :: 0 <= i < j < |ids| ==> ids[i] != ids[j]
    ensures |Elements(ids)| == |ids|
  {
    if ids != [] {
      DistinctSize(ids[..|ids| - 1]);
      assert ids[|ids| - 1] !in Elements(ids[..|ids| - 1]);
      assert Elements(ids) == Elements(ids[..|ids| - 1]) + {ids[|ids| - 1]};
    }
  }

  /** The stripes of a key are those that the lost object lists. */
  lemma GroupBack(a: State, hash: Vec -> Checksum, found: map<StripeId, Meta>, p: ObjectId)
    requires ObjectOk(a, hash, p) && KeysUnique(a) && StripesOk(a) && p in a.objects && found.Keys == a.stripes.Keys
    requires forall s :: s in a.stripes ==> !a.stripes[s].state.Pending?
    requires forall s :: s in found ==>
               a.stripes[s].owner in a.objects && found[s].key == a.objects[a.stripes[s].owner].key
    ensures p in a.layout && Group(found, a.objects[p].key) == Elements(a.layout[p])
  {
    hide ObjectOk;
    ObjectListed(a, hash, p);
    forall s
      ensures s in Group(found, a.objects[p].key) <==> s in Elements(a.layout[p])
    {
      if s in a.layout[p] {
        ListedByOwner(a, hash, p, s);
      }
    }
  }

  lemma FoundKeys(a: State, b: State, disks: map<DiskId, Disk>, files: map<Path, Slot>, hash: Vec -> Checksum,
                  found: map<StripeId, Meta>, located: map<ShardKey, Place>)
    requires Recovered(a, b, disks, files, hash, found, located)
    ensures found.Keys == a.stripes.Keys && KeysUnique(a) && StripesOk(a)
    ensures forall s :: s in a.stripes ==> !a.stripes[s].state.Pending?
    ensures forall s :: s in found ==> KnownStripe(a, s) && found[s] == MetaOfRow(a, s)
                                       && a.stripes[s].owner in a.objects
                                          && found[s].key == a.objects[a.stripes[s].owner].key
    ensures forall p :: p in a.objects ==> ObjectOk(a, hash, p) && a.objects[p].committed
  {
    hide Clean, Scanned, Indexed, ObjectOk, Rebuilt, StripeIndexed, KeysUnique, StripesOk, Fits;
    StripesBack(a, b, disks, files, hash, found, located);
  }

  lemma SizeBack(a: State, hash: Vec -> Checksum, p: ObjectId, found: map<StripeId, Meta>, size: nat)
    requires ObjectOk(a, hash, p) && a.objects[p].committed
    requires forall s :: s in a.layout[p] ==> s in found && KnownStripe(a, s) && found[s] == MetaOfRow(a, s)
    requires IsEnd(found, Elements(a.layout[p]), size)
    ensures size == a.objects[p].size && |Elements(a.layout[p])| == a.objects[p].stripeCount
  {
    var ids := a.layout[p];
    assert size == a.objects[p].size by {
      hide PlaceOk, Flatten, Fits;
      var s :| s in Elements(ids) && s in found && found[s].offset + found[s].len == size;
      var i :| 0 <= i < |ids| && ids[i] == s;
      EndOfPlace(a, hash, p, i);
      EndOfPlace(a, hash, p, |ids| - 1);
      assert ids[|ids| - 1] in Elements(ids);
    }
    forall i: nat, j: nat | i < j < |ids|
      ensures ids[i] != ids[j]
    {
      EndOfPlace(a, hash, p, i);
      EndOfPlace(a, hash, p, j);
    }
    hide ObjectOk, Flatten, IsEnd;
    DistinctSize(ids);
    assert |ids| == a.objects[p].stripeCount by { CountOf(a, hash, p); }
  }

  lemma CountOf(a: State, hash: Vec -> Checksum, p: ObjectId)
    requires ObjectOk(a, hash, p) && a.objects[p].committed
    ensures a.objects[p].stripeCount == |a.layout[p]|
  {}

  lemma ObjectFromAt(a: State, b: State, disks: map<DiskId, Disk>, files: map<Path, Slot>, hash: Vec -> Checksum,
                     found: map<StripeId, Meta>, located: map<ShardKey, Place>, o: ObjectId)
    requires Recovered(a, b, disks, files, hash, found, located) && o in b.objects
    ensures ObjectFrom(found, found.Keys, b.objects[o])
    ensures b == Rebuilt(a, b.objects, b.stripes, b.shards, files.Keys)
  {
    hide Clean, Scanned, StripesIndexed, Consistent, Settled, ObjectFrom, RowsFor, Rebuilt;
  }

  lemma KeyOfGroup(a: State, found: map<StripeId, Meta>, key: Key)
    requires Group(found, key) != {}
    requires forall s :: s in found ==> KnownStripe(a, s) && found[s] == MetaOfRow(a, s)
    ensures HasKey(a, key)
  {
    var s :| s in Group(found, key);
    assert KnownStripe(a, s);
    assert a.objects[a.stripes[s].owner].key == key;
  }

  lemma LayoutBack(a: State, b: State, files: set<Path>, o: ObjectId)
    requires b == Rebuilt(a, b.objects, b.stripes, b.shards, files) && o in b.objects
    requires HasKey(a, b.objects[o].key) && LostObject(a, b.objects[o].key) in a.layout
    ensures o in b.layout && b.layout[o] == a.layout[LostObject(a, b.objects[o].key)]
  {}

  lemma FromParts(found: map<StripeId, Meta>, done: set<StripeId>, row: ObjectRow)
    requires ObjectFrom(found, done, row)
    ensures row.committed && Group(found, row.key) != {} && row.stripeCount == |Group(found, row.key)|
    ensures IsEnd(found, Group(found, row.key), row.size)
  {
    hide IsEnd, Group;
  }

  lemma ObjectOfKey(a: State, b: State, disks: map<DiskId, Disk>, files: map<Path, Slot>, hash: Vec -> Checksum,
                    found: map<StripeId, Meta>, located: map<ShardKey, Place>, o: ObjectId)
    requires Recovered(a, b, disks, files, hash, found, located) && o in b.objects
    ensures HasKey(a, b.objects[o].key) && LostObject(a, b.objects[o].key) in a.layout
    ensures o in b.layout && b.layout[o] == a.layout[LostObject(a, b.objects[o].key)]
    ensures b.objects[o] == a.objects[LostObject(a, b.objects[o].key)]
  {
    hide *;
    FoundKeys(a, b, disks, files, hash, found, located);
    ObjectFromAt(a, b, disks, files, hash, found, located, o);
    FromParts(found, found.Keys, b.objects[o]);
    KeyOfGroup(a, found, b.objects[o].key);
    var p := LostObject(a, b.objects[o].key);
    GroupBack(a, hash, found, p);
    LayoutBack(a, b, files.Keys, o);
    InElements(a.layout[p]);
    InGroup(found, a.objects[p].key);
    SizeBack(a, hash, p, found, b.objects[o].size);
  }

  lemma InElements(ids: seq<StripeId>)
    ensures forall s :: s in Elements(ids) <==> s in ids
  {}

  lemma InGroup(found: map<StripeId, Meta>, key: Key)
    ensures forall s :: s in Group(found, key) ==> s in found
  {}

  // ---------------------------------------------------------------- the theorem

  lemma PlaceBack(a: State, b: State, disks: map<DiskId, Disk>, files: map<Path, Slot>, hash: Vec -> Checksum,
                  found: map<StripeId, Meta>, located: map<ShardKey, Place>, o: ObjectId, i: nat)
    requires Recovered(a, b, disks, files, hash, found, located) && o in b.objects
    requires o in b.layout && i < |b.layout[o]|
    ensures PlaceOk(b, hash, o, b.layout[o], i)
  {
    hide *;
    ObjectOfKey(a, b, disks, files, hash, found, located, o);
    FoundKeys(a, b, disks, files, hash, found, located);
    StripesBack(a, b, disks, files, hash, found, located);
    TablesBack(a, b, disks, files, hash, found, located);
    var p := LostObject(a, b.objects[o].key);
    var s := a.layout[p][i];
    PlaceAt(a, hash, p, i);
    ShardsBack(a, b, disks, files, hash, found, located, s);
    StripeBack(a, b, disks, files, hash, found, located, s);
    SameOwner(b, b.stripes[s].owner, o);
    PlaceMoved(a, b, hash, p, o, i);
  }

  lemma PlaceAt(a: State, hash: Vec -> Checksum, p: ObjectId, i: nat)
    requires ObjectOk(a, hash, p) && p in a.layout && i < |a.layout[p]|
    ensures PlaceOk(a, hash, p, a.layout[p], i) && a.layout[p][i] in a.stripes && a.stripes[a.layout[p][i]].owner == p
  {
    hide StripeOk, Flatten;
  }

  lemma SameOwner(b: State, o: ObjectId, p: ObjectId)
    requires KeysUnique(b) && o in b.objects && p in b.objects && b.objects[o].key == b.objects[p].key
    ensures o == p
  {}

  lemma PlaceMoved(a: State, b: State, hash: Vec -> Checksum, p: ObjectId, o: ObjectId, i: nat)
    requires p in a.layout && o in b.layout && b.layout[o] == a.layout[p] && i < |a.layout[p]|
    requires PlaceOk(a, hash, p, a.layout[p], i) && b.content == a.content
    requires var s := a.layout[p][i];
             s in a.stripes && s in b.stripes && s in b.content && SameStripe(a.stripes[s], b.stripes[s])
             && b.stripes[s].owner == o && StripeOk(b.stripes[s], b.content[s], s, b.shards, hash)
    ensures PlaceOk(b, hash, o, b.layout[o], i)
  {
    hide StripeOk, Flatten;
  }

  lemma ObjectMoved(a: State, b: State, hash: Vec -> Checksum, p: ObjectId, o: ObjectId)
    requires p in a.objects && ObjectOk(a, hash, p) && a.objects[p].committed && b.content == a.content
    requires o in b.objects && o in b.layout && b.objects[o] == a.objects[p] && p in a.layout
             && b.layout[o] == a.layout[p]
    requires forall i: nat :: i < |b.layout[o]| ==> PlaceOk(b, hash, o, b.layout[o], i)
    ensures ObjectOk(b, hash, o)
    ensures forall key, data: Vec :: HoldsAs(b, key, data, o) <==> HoldsAs(a, key, data, p)
  {
    hide PlaceOk, Flatten;
  }

  lemma ObjectBack(a: State, b: State, disks: map<DiskId, Disk>, files: map<Path, Slot>, hash: Vec -> Checksum,
                   found: map<StripeId, Meta>, located: map<ShardKey, Place>, o: ObjectId)
    requires Recovered(a, b, disks, files, hash, found, located) && o in b.objects
    ensures ObjectOk(b, hash, o) && HasKey(a, b.objects[o].key)
    ensures forall key, data: Vec ::
              HoldsAs(b, key, data, o) <==> HoldsAs(a, key, data, LostObject(a, b.objects[o].key))
  {
    hide *;
    ObjectOfKey(a, b, disks, files, hash, found, located, o);
    FoundKeys(a, b, disks, files, hash, found, located);
    StripesBack(a, b, disks, files, hash, found, located);
    forall i: nat | i < |b.layout[o]|
      ensures PlaceOk(b, hash, o, b.layout[o], i)
    {
      PlaceBack(a, b, disks, files, hash, found, located, o, i);
    }
    ObjectMoved(a, b, hash, LostObject(a, b.objects[o].key), o);
  }

  /** The object that a recovered stripe went to stands for the one it belonged to. */
  lemma OwnerBack(a: State, b: State, disks: map<DiskId, Disk>, files: map<Path, Slot>, hash: Vec -> Checksum,
                  found: map<StripeId, Meta>, located: map<ShardKey, Place>, s: StripeId)
    requires Recovered(a, b, disks, files, hash, found, located) && s in a.stripes
    ensures s in b.stripes && b.stripes[s].owner in b.objects && HasKey(a, b.objects[b.stripes[s].owner].key)
    ensures LostObject(a, b.objects[b.stripes[s].owner].key) == a.stripes[s].owner
    ensures b.stripes[s].owner in b.layout && s in b.layout[b.stripes[s].owner]
    ensures s in b.content && s in b.used
  {
    hide *;
    StripeBack(a, b, disks, files, hash, found, located, s);
    FoundKeys(a, b, disks, files, hash, found, located);
    StripesBack(a, b, disks, files, hash, found, located);
    ObjectOfKey(a, b, disks, files, hash, found, located, b.stripes[s].owner);
    SameOwner(a, LostObject(a, b.objects[b.stripes[s].owner].key), a.stripes[s].owner);
    ListedStripe(a, s);
  }

  lemma ListedStripe(a: State, s: StripeId)
    requires StripesOk(a) && s in a.stripes && !a.stripes[s].state.Pending?
    ensures s in a.content && s in a.used && a.stripes[s].owner in a.layout && s in a.layout[a.stripes[s].owner]
  {}

  lemma StripesOkBack(a: State, b: State, disks: map<DiskId, Disk>, files: map<Path, Slot>, hash: Vec -> Checksum,
                      found: map<StripeId, Meta>, located: map<ShardKey, Place>)
    requires Recovered(a, b, disks, files, hash, found, located)
    ensures StripesOk(b)
  {
    hide Recovered, KnownStripe, StripeIndexed, HasKey, LostObject, RowsFor, MetaOfRow;
    StripesBack(a, b, disks, files, hash, found, located);
    forall s | s in b.stripes
      ensures s in b.content && s in b.used && b.stripes[s].owner in b.objects
              && b.stripes[s].owner in b.layout && s in b.layout[b.stripes[s].owner]
    {
      OwnerBack(a, b, disks, files, hash, found, located, s);
    }
  }

  /** From disks that hold only the shard files of a settled index, the recovery rebuilds a
      consistent index in which every key has the bytes it had. */
  lemma RecoveryRestores(a: State, b: State, disks: map<DiskId, Disk>, files: map<Path, Slot>, hash: Vec -> Checksum,
                         found: map<StripeId, Meta>, located: map<ShardKey, Place>)
    requires Recovered(a, b, disks, files, hash, found, located)
    ensures Consistent(b, hash) && SameVisible(a, b)
  {
    hide Recovered, ObjectOk, StripesOk, ShardsOk, KeysUnique, HoldsAs, HasKey, LostObject;
    StripesOkBack(a, b, disks, files, hash, found, located);
    TablesBack(a, b, disks, files, hash, found, located);
    forall o | o in b.objects
      ensures ObjectOk(b, hash, o)
    {
      ObjectBack(a, b, disks, files, hash, found, located, o);
    }
    forall key, data: Vec
      ensures Holds(a, key, data) <==> Holds(b, key, data)
    {
      if Holds(b, key, data) {
        var o :| HoldsAs(b, key, data, o);
        HeldObject(b, key, data, o);
        ObjectBack(a, b, disks, files, hash, found, located, o);
      }
      if Holds(a, key, data) {
        var p :| HoldsAs(a, key, data, p);
        HeldObject(a, key, data, p);
        var o := RecoveredObject(a, b, disks, files, hash, found, located, p);
        ObjectBack(a, b, disks, files, hash, found, located, o);
      }
    }
  }

  lemma HeldObject(a: State, key: Key, data: Vec, o: ObjectId)
    requires HoldsAs(a, key, data, o)
    ensures o in a.objects
  {}

  lemma RecoveredObject(a: State, b: State, disks: map<DiskId, Disk>, files: map<Path, Slot>, hash: Vec -> Checksum,
                        found: map<StripeId, Meta>, located: map<ShardKey, Place>, p: ObjectId) returns (o: ObjectId)
    requires Recovered(a, b, disks, files, hash, found, located) && p in a.objects
    ensures o in b.objects && HasKey(a, b.objects[o].key) && LostObject(a, b.objects[o].key) == p
  {
    hide *;
    FoundKeys(a, b, disks, files, hash, found, located);
    FirstStripe(a, b, disks, files, hash, found, located, p);
    var s := a.layout[p][0];
    PlaceAt(a, hash, p, 0);
    OwnerBack(a, b, disks, files, hash, found, located, s);
    o := b.stripes[s].owner;
  }

  lemma FirstStripe(a: State, b: State, disks: map<DiskId, Disk>, files: map<Path, Slot>, hash: Vec -> Checksum,
                    found: map<StripeId, Meta>, located: map<ShardKey, Place>, p: ObjectId)
    requires Recovered(a, b, disks, files, hash, found, located) && p in a.objects
    ensures p in a.layout && a.layout[p] != []
  {
    hide Clean, Scanned, Indexed, Consistent, Rebuilt;
  }

  // ---------------------------------------------------------------- reading back

  /** No shard has files on two readable disks, and no disk has id 0. */
  ghost predicate SingleCopies(disks: map<DiskId, Disk>, files: map<Path, Slot>) {
    0 !in disks
    && forall p, q :: Headed(disks, files, p) && Headed(disks, files, q) && p.stripe == q.stripe && p.idx == q.idx ==>
       p == q
  }

  lemma ReadHeaded(v: View, hash: Vec -> Checksum, s: StripeId, i: nat) returns (d: DiskId)
    requires v.Read(hash, s, i).Some?
    ensures ShardKey(s, i) in v.shards && v.shards[ShardKey(s, i)].disk == Some(d)
    ensures Headed(v.disks, v.files, Path(d, s, i)) && v.shards[ShardKey(s, i)].state != Missing
  {
    d := v.shards[ShardKey(s, i)].disk.value;
  }

  lemma SameRowReads(v: View, w: View, hash: Vec -> Checksum, s: StripeId, i: nat)
    requires v.Read(hash, s, i).Some? && w.disks == v.disks && w.files == v.files
    requires ShardKey(s, i) in w.shards && w.shards[ShardKey(s, i)] == v.shards[ShardKey(s, i)].(state := Fine)
    ensures w.Read(hash, s, i) == v.Read(hash, s, i)
  {}

  lemma ChecksumOf(a: State, hash: Vec -> Checksum, s: StripeId, i: nat, p: ObjectId)
    requires ObjectOk(a, hash, p) && s in a.layout[p] && s in a.stripes && s in a.content
             && Fits(a.stripes[s], a.content[s])
    requires i < a.stripes[s].k + a.stripes[s].m && ShardKey(s, i) in a.shards
             && a.shards[ShardKey(s, i)].state != Missing
    ensures a.shards[ShardKey(s, i)].checksum == Some(hash(ShardOf(a.stripes[s], a.content[s], i)))
  {
    ListedByOwner(a, hash, p, s);
    assert RowOk(a.stripes[s], a.content[s], s, i, a.shards, hash);
    hide ShardOf, ObjectOk;
  }

  /** Every shard that verified under the lost index verifies under the rebuilt one. */
  lemma ReadsBack(a: State, b: State, disks: map<DiskId, Disk>, files: map<Path, Slot>, hash: Vec -> Checksum,
                  found: map<StripeId, Meta>, located: map<ShardKey, Place>, s: StripeId, i: nat)
    requires Recovered(a, b, disks, files, hash, found, located) && SingleCopies(disks, files)
    requires View(disks, files, a.shards).Read(hash, s, i).Some?
    ensures View(disks, files, b.shards).Read(hash, s, i) == View(disks, files, a.shards).Read(hash, s, i)
  {
    hide *;
    var v, w := View(disks, files, a.shards), View(disks, files, b.shards);
    var d := ReadHeaded(v, hash, s, i);
    var key := ShardKey(s, i);
    CopyFound(a, b, disks, files, hash, found, located, d, s, i);
    FoundKeys(a, b, disks, files, hash, found, located);
    FitsBack(a, b, disks, files, hash, found, located, s);
    ListedStripe(a, s);
    ChecksumOf(a, hash, s, i, a.stripes[s].owner);
    LocatedBack(a, b, disks, files, hash, found, located, key);
    RowBack(found, located, s, i);
    StripesBack(a, b, disks, files, hash, found, located);
    SameRowReads(v, w, hash, s, i);
  }

  /** The one copy of a shard is where the scan locates it. */
  lemma CopyFound(a: State, b: State, disks: map<DiskId, Disk>, files: map<Path, Slot>, hash: Vec -> Checksum,
                  found: map<StripeId, Meta>, located: map<ShardKey, Place>, d: DiskId, s: StripeId, i: nat)
    requires Recovered(a, b, disks, files, hash, found, located) && SingleCopies(disks, files)
    requires Headed(disks, files, Path(d, s, i))
    ensures s in a.stripes && i < a.stripes[s].k + a.stripes[s].m
    ensures ShardKey(s, i) in located && located[ShardKey(s, i)].disk == d && d != 0
  {
    var p := Path(d, s, i);
    ListedHeaded(a, disks, files, hash, p);
    hide Indexed, Rebuilt, Consistent, AllFound, AllLocated, ShardOf, Settled, Clean;
    LocatedRow(a, disks, files, hash, found, located, ShardKey(s, i));
  }

  /** Recover the index: scan all disks, then build the tables. */
  method RecoverIndex(disks: map<DiskId, Disk>, files: map<Path, Slot>, ghost hash: Vec -> Checksum, ghost a: State)
    returns (objects: map<ObjectId, ObjectRow>, stripes: map<StripeId, StripeRow>, shards: map<ShardKey, ShardRow>,
             ghost b: State)
    ensures b.objects == objects && b.stripes == stripes && b.shards == shards
    ensures Consistent(a, hash) && Settled(a) && Clean(a, disks, files, hash) ==>
              Consistent(b, hash) && SameVisible(a, b)
    ensures Consistent(a, hash) && Settled(a) && Clean(a, disks, files, hash) && SingleCopies(disks, files) ==>
              Spares(View(disks, files, a.shards), View(disks, files, shards), hash, a.stripes.Keys)
  {
    hide *;
    var found, located := Scan(disks, files);
    objects, stripes, shards := BuildIndex(found, located);
    b := Rebuilt(a, objects, stripes, shards, files.Keys);
    RebuiltTables(a, objects, stripes, shards, files.Keys);
    if Consistent(a, hash) && Settled(a) && Clean(a, disks, files, hash) {
      RecoveredMade(a, b, disks, files, hash, found, located);
      RecoveryRestores(a, b, disks, files, hash, found, located);
      if SingleCopies(disks, files) {
        AllReadsBack(a, b, disks, files, hash, found, located);
      }
    }
  }

  lemma RebuiltTables(a: State, objects: map<ObjectId, ObjectRow>, stripes: map<StripeId, StripeRow>,
                      shards: map<ShardKey, ShardRow>, files: set<Path>)
    ensures var b := Rebuilt(a, objects, stripes, shards, files);
            b.objects == objects && b.stripes == stripes && b.shards == shards
  {}

  lemma RecoveredMade(a: State, b: State, disks: map<DiskId, Disk>, files: map<Path, Slot>, hash: Vec -> Checksum,
                      found: map<StripeId, Meta>, located: map<ShardKey, Place>)
    requires Consistent(a, hash) && Settled(a) && Clean(a, disks, files, hash)
    requires Scanned(disks, files, files.Keys, found, located)
    requires Indexed(found, located, found.Keys, b.objects, b.stripes, b.shards)
    requires b == Rebuilt(a, b.objects, b.stripes, b.shards, files.Keys)
    ensures Recovered(a, b, disks, files, hash, found, located)
  {
    hide Consistent, Settled, Clean, Scanned, Indexed, Rebuilt;
  }

  lemma AllReadsBack(a: State, b: State, disks: map<DiskId, Disk>, files: map<Path, Slot>, hash: Vec -> Checksum,
                     found: map<StripeId, Meta>, located: map<ShardKey, Place>)
    requires Recovered(a, b, disks, files, hash, found, located) && SingleCopies(disks, files)
    ensures Spares(View(disks, files, a.shards), View(disks, files, b.shards), hash, a.stripes.Keys)
  {
    hide Recovered, SingleCopies, View.Read;
    forall s: StripeId, i: nat | s in a.stripes && View(disks, files, a.shards).Read(hash, s, i).Some?
      ensures View(disks, files, b.shards).Read(hash, s, i) == View(disks, files, a.shards).Read(hash, s, i)
    {
      ReadsBack(a, b, disks, files, hash, found, located, s, i);
    }
  }
}
