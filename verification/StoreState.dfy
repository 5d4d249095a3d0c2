/** The consistent states of the object store and what a client sees in them. */
module StoreState {
  import opened LinearAlgebra
  import opened StoreTypes

  /** The tables, with what they stand for: each stripe's data, each object's stripes in
      order, the stripe ids ever used and the shard files ever completely written. */
  datatype State = State(
    objects: map<ObjectId, ObjectRow>,
    stripes: map<StripeId, StripeRow>,
    shards: map<ShardKey, ShardRow>,
    content: map<StripeId, Vec>,
    layout: map<ObjectId, seq<StripeId>>,
    used: set<StripeId>,
    written: set<Path>)

  /** The bytes of consecutive stripes. */
  function Flatten(ids: seq<StripeId>, content: map<StripeId, Vec>): (r: Vec)
    requires forall i :: 0 <= i < |ids| ==> ids[i] in content
  {
    if ids == [] then [] else Flatten(ids[..|ids| - 1], content) + content[ids[|ids| - 1]]
  }

  lemma {:induction false} FlattenSame(ids: seq<StripeId>, c: map<StripeId, Vec>, d: map<StripeId, Vec>)
    requires forall i :: 0 <= i < |ids| ==> ids[i] in c && ids[i] in d && c[ids[i]] == d[ids[i]]
    ensures Flatten(ids, c) == Flatten(ids, d)
  {
    if ids != [] {
      FlattenSame(ids[..|ids| - 1], c, d);
    }
  }

  lemma {:induction false} FlattenRenamed(ids: seq<StripeId>, news: seq<StripeId>, c: map<StripeId, Vec>)
    requires |ids| == |news|
    requires forall i :: 0 <= i < |ids| ==> ids[i] in c && news[i] in c && c[ids[i]] == c[news[i]]
    ensures Flatten(ids, c) == Flatten(news, c)
  {
    if ids != [] {
      FlattenRenamed(ids[..|ids| - 1], news[..|news| - 1], c);
    }
  }

  // ---------------------------------------------------------------- consistency

  /** Position i of an object's stripe list: the row, its place in the object and its shards. */
  ghost predicate PlaceOk(st: State, hash: Vec -> Checksum, o: ObjectId, ids: seq<StripeId>, i: nat)
    requires i < |ids|
  {
    (forall j :: 0 <= j <= i ==> ids[j] in st.content) && ids[i] in st.stripes
    && var row := st.stripes[ids[i]];
    row.owner == o && row.seqno == i && !row.state.Pending?
    && row.offset == |Flatten(ids[..i], st.content)|
    && StripeOk(row, st.content[ids[i]], ids[i], st.shards, hash)
  }

  ghost predicate ObjectOk(st: State, hash: Vec -> Checksum, o: ObjectId) {
    o in st.objects && o in st.layout
    && (forall i :: 0 <= i < |st.layout[o]| ==> PlaceOk(st, hash, o, st.layout[o], i))
    && (st.objects[o].committed ==>
          (forall i :: 0 <= i < |st.layout[o]| ==> st.layout[o][i] in st.content)
          && st.objects[o].size == |Flatten(st.layout[o], st.content)|
          && st.objects[o].stripeCount == |st.layout[o]|)
  }

  ghost predicate StripesOk(st: State) {
    forall s :: s in st.stripes ==>
      s in st.content && s in st.used && st.stripes[s].owner in st.objects
      && (!st.stripes[s].state.Pending? ==>
            st.stripes[s].owner in st.layout && s in st.layout[st.stripes[s].owner])
  }

  /** Shard rows belong to stripes, and a row with a disk points at a file that was written. */
  ghost predicate ShardsOk(st: State) {
    forall key :: key in st.shards ==>
      key.stripe in st.stripes && key.idx < st.stripes[key.stripe].k + st.stripes[key.stripe].m
      && (st.shards[key].disk.Some? ==> Path(st.shards[key].disk.value, key.stripe, key.idx) in st.written)
  }

  ghost predicate KeysUnique(st: State) {
    forall o, p :: o in st.objects && p in st.objects && o != p ==> st.objects[o].key != st.objects[p].key
  }

  ghost predicate Consistent(st: State, hash: Vec -> Checksum) {
    (forall o :: o in st.objects ==> ObjectOk(st, hash, o)) && StripesOk(st) && ShardsOk(st) && KeysUnique(st)
  }

  // ---------------------------------------------------------------- what a client sees

  /** A committed object with this key and these bytes exists. */
  ghost predicate Holds(st: State, key: Key, data: Vec) {
    exists o :: HoldsAs(st, key, data, o)
  }

  ghost predicate HoldsAs(st: State, key: Key, data: Vec, o: ObjectId) {
    o in st.objects && st.objects[o].committed && st.objects[o].key == key
    && o in st.layout && (forall i :: 0 <= i < |st.layout[o]| ==> st.layout[o][i] in st.content)
    && data == Flatten(st.layout[o], st.content)
  }

  ghost predicate Exists(st: State, key: Key) {
    exists o :: o in st.objects && st.objects[o].committed && st.objects[o].key == key
  }

  /** The same objects with the same bytes are visible. */
  ghost predicate SameVisible(a: State, b: State) {
    forall key, data :: Holds(a, key, data) <==> Holds(b, key, data)
  }

  /** A key has a value exactly if a committed object has it, and then only one. */
  lemma OneValue(st: State, hash: Vec -> Checksum, key: Key)
    requires Consistent(st, hash)
    ensures Exists(st, key) <==> exists data :: Holds(st, key, data)
    ensures forall a, b :: Holds(st, key, a) && Holds(st, key, b) ==> a == b
  {
    if Exists(st, key) {
      var o :| o in st.objects && st.objects[o].committed && st.objects[o].key == key;
      assert ObjectOk(st, hash, o);
      assert HoldsAs(st, key, Flatten(st.layout[o], st.content), o);
      assert Holds(st, key, Flatten(st.layout[o], st.content));
    }
    if exists data :: Holds(st, key, data) {
      var data :| Holds(st, key, data);
      var o :| HoldsAs(st, key, data, o);
    }
  }

  // ---------------------------------------------------------------- framing

  /** Object o and its stripes, with their data and well-formed shard rows, go over to b. */
  ghost predicate Carried(a: State, b: State, hash: Vec -> Checksum, o: ObjectId) {
    o in a.objects && o in b.objects && b.objects[o] == a.objects[o]
    && o in a.layout && o in b.layout && b.layout[o] == a.layout[o]
    && forall s :: s in a.layout[o] && s in a.stripes && s in a.content ==> StripeKept(a, b, hash, s)
  }

  ghost predicate StripeKept(a: State, b: State, hash: Vec -> Checksum, s: StripeId)
    requires s in a.stripes && s in a.content
  {
    s in b.stripes && s in b.content && b.content[s] == a.content[s] && SameRow(a.stripes[s], b.stripes[s])
    && (StripeOk(a.stripes[s], a.content[s], s, a.shards, hash) ==>
          StripeOk(b.stripes[s], b.content[s], s, b.shards, hash))
  }

  /** Equal but for the health flag and the scrub time; a listed stripe stays listed. */
  ghost predicate SameRow(a: StripeRow, b: StripeRow) {
    b == a.(state := b.state, scrubbed := b.scrubbed) && (a.state.Pending? <==> b.state.Pending?)
  }

  /** Shard rows keep their checksum, and missing ones stay missing. */
  ghost predicate RowsCarried(a: State, b: State, s: StripeId) {
    forall i :: ShardKey(s, i) in a.shards ==>
      ShardKey(s, i) in b.shards
      && b.shards[ShardKey(s, i)].checksum == a.shards[ShardKey(s, i)].checksum
      && (a.shards[ShardKey(s, i)].state == Missing ==> b.shards[ShardKey(s, i)].state == Missing)
  }

  lemma RowsCarriedKept(a: State, b: State, hash: Vec -> Checksum, s: StripeId)
    requires s in a.stripes && s in b.stripes && s in a.content && s in b.content
    requires b.content[s] == a.content[s] && SameRow(a.stripes[s], b.stripes[s]) && RowsCarried(a, b, s)
    ensures StripeKept(a, b, hash, s)
  {
    hide ShardOf;
    var row := b.stripes[s];
    if StripeOk(a.stripes[s], a.content[s], s, a.shards, hash) {
      forall i: nat | i < row.k + row.m
        ensures RowOk(row, b.content[s], s, i, b.shards, hash)
      {
        assert RowOk(a.stripes[s], a.content[s], s, i, a.shards, hash);
        ShardOfSameRow(a.stripes[s], row, a.content[s], i);
      }
    }
  }

  lemma ShardOfSameRow(a: StripeRow, b: StripeRow, data: Vec, i: nat)
    requires SameRow(a, b) && Fits(a, data) && i < a.k + a.m
    ensures ShardOf(b, data, i) == ShardOf(a, data, i)
  {}

  lemma PlaceCarried(a: State, b: State, hash: Vec -> Checksum, o: ObjectId, i: nat)
    requires Carried(a, b, hash, o) && i < |a.layout[o]| && PlaceOk(a, hash, o, a.layout[o], i)
    requires forall j :: 0 <= j < |a.layout[o]| ==> a.layout[o][j] in a.stripes && a.layout[o][j] in a.content
    ensures PlaceOk(b, hash, o, b.layout[o], i)
  {
    hide StripeOk;
    var ids := a.layout[o];
    assert ids[i] in ids;
    forall j | 0 <= j <= i
      ensures ids[j] in b.content && b.content[ids[j]] == a.content[ids[j]]
    {
      assert ids[j] in ids;
    }
    FlattenSame(ids[..i], a.content, b.content);
  }

  /** An object whose stripes are carried over stays well formed and keeps its bytes. */
  lemma ObjectCarried(a: State, b: State, hash: Vec -> Checksum, o: ObjectId)
    requires ObjectOk(a, hash, o) && Carried(a, b, hash, o)
    ensures ObjectOk(b, hash, o)
    ensures forall key, data :: HoldsAs(a, key, data, o) <==> HoldsAs(b, key, data, o)
  {
    hide PlaceOk, StripeOk;
    var ids := a.layout[o];
    forall i | 0 <= i < |ids|
      ensures ids[i] in a.stripes && ids[i] in a.content && ids[i] in b.content
              && b.content[ids[i]] == a.content[ids[i]]
    {
      PlaceParts(a, hash, o, ids, i);
      assert ids[i] in ids;
    }
    forall i: nat | i < |ids|
      ensures PlaceOk(b, hash, o, b.layout[o], i)
    {
      PlaceCarried(a, b, hash, o, i);
    }
    FlattenSame(ids, a.content, b.content);
  }

  lemma PlaceParts(st: State, hash: Vec -> Checksum, o: ObjectId, ids: seq<StripeId>, i: nat)
    requires i < |ids| && PlaceOk(st, hash, o, ids, i)
    ensures ids[i] in st.stripes && ids[i] in st.content && st.stripes[ids[i]].owner == o
    ensures st.stripes[ids[i]].seqno == i && !st.stripes[ids[i]].state.Pending?
    ensures StripeOk(st.stripes[ids[i]], st.content[ids[i]], ids[i], st.shards, hash)
  {}
}
