/** The store's atomic steps: each database transaction as a function on states, and what
    it keeps. Whatever happens between two steps, a crash finds a consistent state. */
module StoreSteps {
  import opened Wrappers
  import opened LinearAlgebra
  import opened StoreTypes
  import opened StoreState
  import opened Sequences

  // ---------------------------------------------------------------- steps

  function InsertObject(st: State, o: ObjectId, key: Key): State {
    st.(objects := st.objects[o := ObjectRow(key, 0, 0, false)], layout := st.layout[o := []])
  }

  function InsertStripe(st: State, s: StripeId, row: StripeRow, data: Vec): State {
    st.(stripes := st.stripes[s := row.(state := Pending)], content := st.content[s := data], used := st.used + {s})
  }

  function NoteWritten(st: State, paths: set<Path>): State {
    st.(written := st.written + paths)
  }

  /** Deleting stripe rows deletes their shard rows. */
  function DeleteStripes(st: State, ids: set<StripeId>): State {
    st.(stripes := StripesWithout(st.stripes, ids), shards := ShardsWithout(st.shards, ids))
  }

  function StripesWithout(stripes: map<StripeId, StripeRow>, ids: set<StripeId>): map<StripeId, StripeRow> {
    map s | s in stripes && s !in ids :: stripes[s]
  }

  function ShardsWithout(shards: map<ShardKey, ShardRow>, ids: set<StripeId>): map<ShardKey, ShardRow> {
    map key | key in shards && key.stripe !in ids :: shards[key]
  }

  /** The shard rows of a freshly written stripe and its final state, in one transaction. */
  function CommitStripe(st: State, s: StripeId, rows: map<ShardKey, ShardRow>): State
    requires s in st.stripes && st.stripes[s].owner in st.layout
  {
    var o := st.stripes[s].owner;
    st.(shards := st.shards + rows, stripes := st.stripes[s := st.stripes[s].(state := Committed)],
        layout := st.layout[o := st.layout[o] + [s]])
  }

  /** The shard rows of a replacement stripe; it stays pending until the swap. */
  function StageStripe(st: State, rows: map<ShardKey, ShardRow>): State {
    st.(shards := st.shards + rows)
  }

  function CommitObject(st: State, o: ObjectId, size: nat, count: nat): State
    requires o in st.objects
  {
    st.(objects := st.objects[o := st.objects[o].(size := size, stripeCount := count, committed := true)])
  }

  /** Deleting an object deletes its stripes and their shard rows. */
  function DeleteObject(st: State, o: ObjectId): State {
    DeleteStripes(st, OwnedBy(st, o)).(objects := ObjectsWithout(st.objects, o))
  }

  function ObjectsWithout(objects: map<ObjectId, ObjectRow>, o: ObjectId): map<ObjectId, ObjectRow> {
    map p | p in objects && p != o :: objects[p]
  }

  function OwnedBy(st: State, o: ObjectId): set<StripeId> {
    OwnedStripes(st.stripes, o)
  }

  function OwnedStripes(stripes: map<StripeId, StripeRow>, o: ObjectId): set<StripeId> {
    set s | s in stripes && stripes[s].owner == o
  }

  /** The replacement stripes become visible and the old ones go, in one transaction. */
  function SwapStripes(st: State, o: ObjectId, news: seq<StripeId>): State
    requires o in st.layout
  {
    var rest := DeleteStripes(st, Elements(st.layout[o]));
    rest.(stripes := Promoted(rest.stripes, news), layout := st.layout[o := news])
  }

  function Promoted(stripes: map<StripeId, StripeRow>, news: seq<StripeId>): map<StripeId, StripeRow> {
    map s | s in stripes :: if s in news then stripes[s].(state := Committed) else stripes[s]
  }

  function SetRow(st: State, key: ShardKey, row: ShardRow): State {
    st.(shards := st.shards[key := row])
  }

  function SetStripeState(st: State, s: StripeId, state: StripeState, scrubbed: nat): State
    requires s in st.stripes
  {
    st.(stripes := st.stripes[s := st.stripes[s].(state := state, scrubbed := scrubbed)])
  }

  // ---------------------------------------------------------------- framing of a step

  /** Stripe s, its data and its shard rows go over to b. */
  ghost predicate Preserved(a: State, b: State, s: StripeId)
    requires s in a.stripes && s in a.content
  {
    s in b.stripes && SameRow(a.stripes[s], b.stripes[s]) && s in b.content && b.content[s] == a.content[s]
    && RowsCarried(a, b, s)
  }

  /** The rows of every object but o are the same, and so are their stripe lists. */
  ghost predicate OtherObjects(a: State, b: State, o: Option<ObjectId>) {
    forall p: ObjectId :: Some(p) != o ==>
      (p in a.objects <==> p in b.objects)
      && (p in a.objects ==> b.objects[p] == a.objects[p])
      && (p in a.objects && p in a.layout ==> p in b.layout && b.layout[p] == a.layout[p])
  }

  /** All stripes go over but the changed ones, which are pending or belong to o. */
  ghost predicate OtherStripes(a: State, b: State, o: Option<ObjectId>, changed: set<StripeId>) {
    forall s :: s in a.stripes && s in a.content ==>
      if s in changed then a.stripes[s].state.Pending? || Some(a.stripes[s].owner) == o else Preserved(a, b, s)
  }

  /** Stripes listed by an object are its own, committed and well formed. */
  lemma ListedByOwner(st: State, hash: Vec -> Checksum, o: ObjectId, s: StripeId)
    requires ObjectOk(st, hash, o) && s in st.layout[o]
    ensures s in st.stripes && s in st.content && st.stripes[s].owner == o && !st.stripes[s].state.Pending?
    ensures StripeOk(st.stripes[s], st.content[s], s, st.shards, hash)
  {
    hide PlaceOk, StripeOk;
    var i :| 0 <= i < |st.layout[o]| && st.layout[o][i] == s;
    PlaceParts(st, hash, o, st.layout[o], i);
  }

  lemma ObjectListed(st: State, hash: Vec -> Checksum, o: ObjectId)
    requires ObjectOk(st, hash, o)
    ensures o in st.objects && o in st.layout
  {}

  lemma OtherCarried(a: State, b: State, hash: Vec -> Checksum, o: Option<ObjectId>, changed: set<StripeId>,
                     p: ObjectId)
    requires p in a.objects && ObjectOk(a, hash, p) && Some(p) != o
    requires OtherObjects(a, b, o) && OtherStripes(a, b, o, changed)
    ensures Carried(a, b, hash, p)
  {
    ObjectListed(a, hash, p);
    hide ObjectOk, StripeKept, RowsCarried, StripeOk;
    forall s | s in a.layout[p] && s in a.stripes && s in a.content
      ensures StripeKept(a, b, hash, s)
    {
      ListedByOwner(a, hash, p, s);
      RowsCarriedKept(a, b, hash, s);
    }
  }

  lemma NotHeld(st: State, key: Key, data: Vec, p: ObjectId)
    requires p !in st.objects || !st.objects[p].committed
    ensures !HoldsAs(st, key, data, p)
  {}

  /** The other objects stay well formed and keep their bytes. */
  lemma StepKeeps(a: State, b: State, hash: Vec -> Checksum, o: Option<ObjectId>, changed: set<StripeId>)
    requires Consistent(a, hash) && OtherObjects(a, b, o) && OtherStripes(a, b, o, changed)
    requires StripesOk(b) && ShardsOk(b) && KeysUnique(b)
    requires o.Some? && o.value in b.objects ==> ObjectOk(b, hash, o.value)
    ensures Consistent(b, hash)
    ensures forall p: ObjectId, key: Key, data: Vec :: Some(p) != o ==>
              (HoldsAs(a, key, data, p) <==> HoldsAs(b, key, data, p))
  {
    hide ObjectOk, Carried, HoldsAs, StripesOk, ShardsOk, KeysUnique, OtherStripes;
    forall p: ObjectId | Some(p) != o
      ensures p in b.objects ==> ObjectOk(b, hash, p)
      ensures forall key, data: Vec :: HoldsAs(a, key, data, p) <==> HoldsAs(b, key, data, p)
    {
      if p in a.objects {
        OtherCarried(a, b, hash, o, changed, p);
        ObjectCarried(a, b, hash, p);
      } else {
        forall key, data: Vec
          ensures !HoldsAs(a, key, data, p) && !HoldsAs(b, key, data, p)
        {
          NotHeld(a, key, data, p);
          NotHeld(b, key, data, p);
        }
      }
    }
  }

  /** If the one object that changed was and is invisible, nothing visible changes. */
  lemma StepInvisible(a: State, b: State, o: Option<ObjectId>)
    requires forall p: ObjectId, key: Key, data: Vec :: Some(p) != o ==>
               (HoldsAs(a, key, data, p) <==> HoldsAs(b, key, data, p))
    requires o.Some? ==> (o.value !in a.objects || !a.objects[o.value].committed)
                         && (o.value !in b.objects || !b.objects[o.value].committed)
    ensures SameVisible(a, b)
  {
    hide HoldsAs;
    forall key, data: Vec
      ensures Holds(a, key, data) <==> Holds(b, key, data)
    {
      if o.Some? {
        NotHeld(a, key, data, o.value);
        NotHeld(b, key, data, o.value);
      }
      assert forall p: ObjectId :: HoldsAs(a, key, data, p) <==> HoldsAs(b, key, data, p);
    }
  }

  lemma KeysKept(a: State, b: State)
    requires KeysUnique(a)
    requires forall o :: o in b.objects ==> o in a.objects && b.objects[o].key == a.objects[o].key
    ensures KeysUnique(b)
  {}

  /** Steps that leave the stripe and shard tables alone. */
  lemma StripesSame(a: State, b: State, o: Option<ObjectId>)
    requires b.stripes == a.stripes && b.shards == a.shards && b.content == a.content
    ensures OtherStripes(a, b, o, {})
  {}

  // ---------------------------------------------------------------- put

  lemma InsertObjectTables(st: State, hash: Vec -> Checksum, o: ObjectId, key: Key)
    requires Consistent(st, hash) && o !in st.objects
    requires forall p :: p in st.objects ==> st.objects[p].key != key
    ensures var b := InsertObject(st, o, key);
            StripesOk(b) && ShardsOk(b) && KeysUnique(b) && OtherObjects(st, b, Some(o))
  {
    hide ObjectOk;
  }

  lemma InsertObjectStep(st: State, hash: Vec -> Checksum, o: ObjectId, key: Key)
    requires Consistent(st, hash) && o !in st.objects
    requires forall p :: p in st.objects ==> st.objects[p].key != key
    ensures Consistent(InsertObject(st, o, key), hash)
    ensures SameVisible(st, InsertObject(st, o, key))
  {
    var b := InsertObject(st, o, key);
    EmptyObjectOk(b, hash, o);
    InsertObjectTables(st, hash, o, key);
    StripesSame(st, b, Some(o));
    assert !b.objects[o].committed;
    hide *;
    StepKeeps(st, b, hash, Some(o), {});
    StepInvisible(st, b, Some(o));
  }

  lemma EmptyObjectOk(st: State, hash: Vec -> Checksum, o: ObjectId)
    requires o in st.objects && o in st.layout && st.layout[o] == [] && !st.objects[o].committed
    ensures ObjectOk(st, hash, o)
  {}

  lemma InsertStripeTables(st: State, hash: Vec -> Checksum, s: StripeId, row: StripeRow, data: Vec)
    requires Consistent(st, hash) && s !in st.used && row.owner in st.objects
    ensures var b := InsertStripe(st, s, row, data); StripesOk(b) && ShardsOk(b) && KeysUnique(b)
  {
    hide ObjectOk;
  }

  lemma InsertStripeFrame(st: State, hash: Vec -> Checksum, s: StripeId, row: StripeRow, data: Vec)
    requires Consistent(st, hash) && s !in st.used
    ensures var b := InsertStripe(st, s, row, data); OtherObjects(st, b, None) && OtherStripes(st, b, None, {})
  {
    hide ObjectOk, KeysUnique, ShardsOk;
  }

  lemma InsertStripeStep(st: State, hash: Vec -> Checksum, s: StripeId, row: StripeRow, data: Vec)
    requires Consistent(st, hash) && s !in st.used && row.owner in st.objects
    ensures Consistent(InsertStripe(st, s, row, data), hash)
    ensures SameVisible(st, InsertStripe(st, s, row, data))
  {
    var b := InsertStripe(st, s, row, data);
    InsertStripeTables(st, hash, s, row, data);
    InsertStripeFrame(st, hash, s, row, data);
    hide *;
    StepKeeps(st, b, hash, None, {});
    StepInvisible(st, b, None);
  }

  lemma NoteWrittenStep(st: State, hash: Vec -> Checksum, paths: set<Path>)
    requires Consistent(st, hash)
    ensures Consistent(NoteWritten(st, paths), hash) && SameVisible(st, NoteWritten(st, paths))
  {
    hide ObjectOk, KeysUnique;
    var b := NoteWritten(st, paths);
    KeysKept(st, b);
    StripesSame(st, b, None);
    hide OtherStripes;
    StepKeeps(st, b, hash, None, {});
    StepInvisible(st, b, None);
  }

  lemma DeleteStripesTables(st: State, hash: Vec -> Checksum, ids: set<StripeId>)
    requires Consistent(st, hash)
    ensures var b := DeleteStripes(st, ids); StripesOk(b) && ShardsOk(b) && KeysUnique(b)
  {
    hide ObjectOk;
  }

  lemma DeleteStripesFrame(st: State, hash: Vec -> Checksum, ids: set<StripeId>, o: Option<ObjectId>)
    requires Consistent(st, hash)
    requires forall s :: s in ids && s in st.stripes ==> st.stripes[s].state.Pending? || Some(st.stripes[s].owner) == o
    ensures var b := DeleteStripes(st, ids); OtherObjects(st, b, None) && OtherStripes(st, b, o, ids)
  {
    hide ObjectOk, KeysUnique, ShardsOk;
  }

  /** Deleting stripes that are still pending changes nothing visible. */
  lemma DeletePendingStep(st: State, hash: Vec -> Checksum, ids: set<StripeId>)
    requires Consistent(st, hash) && forall s :: s in ids && s in st.stripes ==> st.stripes[s].state.Pending?
    ensures Consistent(DeleteStripes(st, ids), hash) && SameVisible(st, DeleteStripes(st, ids))
  {
    var b := DeleteStripes(st, ids);
    DeleteStripesTables(st, hash, ids);
    DeleteStripesFrame(st, hash, ids, None);
    hide *;
    StepKeeps(st, b, hash, None, ids);
    StepInvisible(st, b, None);
  }

  /** Rows of stripe s only, pointing only at files that were written. */
  ghost predicate RowsOf(st: State, s: StripeId, rows: map<ShardKey, ShardRow>)
    requires s in st.stripes
  {
    forall key :: key in rows ==>
      key.stripe == s && key.idx < st.stripes[s].k + st.stripes[s].m
      && (rows[key].disk.Some? ==> Path(rows[key].disk.value, s, key.idx) in st.written)
  }

  /** The shard rows written for a new stripe: one per shard, each with the shard's checksum. */
  ghost predicate NewRows(st: State, hash: Vec -> Checksum, s: StripeId, rows: map<ShardKey, ShardRow>)
    requires s in st.stripes && s in st.content
  {
    Fits(st.stripes[s], st.content[s]) && RowsOf(st, s, rows)
    && (forall i :: 0 <= i < st.stripes[s].k + st.stripes[s].m ==>
          ShardKey(s, i) in rows
          && rows[ShardKey(s, i)].checksum == Some(hash(ShardOf(st.stripes[s], st.content[s], i))))
  }

  lemma NewRowsOk(st: State, hash: Vec -> Checksum, s: StripeId, rows: map<ShardKey, ShardRow>)
    requires s in st.stripes && s in st.content && NewRows(st, hash, s, rows)
    ensures StripeOk(st.stripes[s], st.content[s], s, st.shards + rows, hash)
    ensures RowsOf(st, s, rows)
  {
    hide ShardOf;
    forall i: nat | i < st.stripes[s].k + st.stripes[s].m
      ensures RowOk(st.stripes[s], st.content[s], s, i, st.shards + rows, hash)
    {}
  }

  lemma StageTables(st: State, hash: Vec -> Checksum, s: StripeId, rows: map<ShardKey, ShardRow>)
    requires Consistent(st, hash) && s in st.stripes && RowsOf(st, s, rows)
    ensures var b := StageStripe(st, rows); StripesOk(b) && KeysUnique(b) && OtherObjects(st, b, None)
  {
    hide ObjectOk, KeysUnique, ShardsOk, RowsOf;
    KeysKept(st, StageStripe(st, rows));
  }

  lemma AddedRowsOk(st: State, b: State, s: StripeId, rows: map<ShardKey, ShardRow>)
    requires ShardsOk(st) && s in st.stripes && RowsOf(st, s, rows)
    requires b.shards == st.shards + rows && b.written == st.written && b.stripes.Keys == st.stripes.Keys
    requires forall t :: t in st.stripes ==> b.stripes[t].k == st.stripes[t].k && b.stripes[t].m == st.stripes[t].m
    ensures ShardsOk(b)
  {}

  lemma StageFrame(st: State, s: StripeId, rows: map<ShardKey, ShardRow>, o: Option<ObjectId>)
    requires s in st.stripes && (st.stripes[s].state.Pending? || Some(st.stripes[s].owner) == o)
    requires RowsOf(st, s, rows)
    ensures OtherStripes(st, StageStripe(st, rows), o, {s})
  {}

  lemma StageStripeStep(st: State, hash: Vec -> Checksum, s: StripeId, rows: map<ShardKey, ShardRow>)
    requires Consistent(st, hash) && s in st.stripes && st.stripes[s].state.Pending? && s in st.content
    requires NewRows(st, hash, s, rows)
    ensures Consistent(StageStripe(st, rows), hash) && SameVisible(st, StageStripe(st, rows))
    ensures StripeOk(st.stripes[s], st.content[s], s, StageStripe(st, rows).shards, hash)
  {
    var b := StageStripe(st, rows);
    NewRowsOk(st, hash, s, rows);
    StageTables(st, hash, s, rows);
    AddedRowsOk(st, b, s, rows);
    StageFrame(st, s, rows, None);
    hide *;
    StepKeeps(st, b, hash, None, {s});
    StepInvisible(st, b, None);
  }

  // ---------------------------------------------------------------- committing a stripe

  /** The next stripe of an object that is still being written. */
  ghost predicate NextStripe(st: State, s: StripeId) {
    s in st.stripes && s in st.content && st.stripes[s].state.Pending?
    && var row := st.stripes[s];
    row.owner in st.objects && !st.objects[row.owner].committed && row.owner in st.layout
    && s !in st.layout[row.owner]
    && row.seqno == |st.layout[row.owner]|
    && (forall i :: 0 <= i < |st.layout[row.owner]| ==> st.layout[row.owner][i] in st.content)
    && row.offset == |Flatten(st.layout[row.owner], st.content)|
  }

  lemma CommitStripeTables(st: State, hash: Vec -> Checksum, s: StripeId, rows: map<ShardKey, ShardRow>)
    requires Consistent(st, hash) && s in st.stripes && st.stripes[s].owner in st.layout && RowsOf(st, s, rows)
    ensures var b := CommitStripe(st, s, rows);
            StripesOk(b) && KeysUnique(b) && OtherObjects(st, b, Some(st.stripes[s].owner))
  {
    hide ObjectOk, KeysUnique, ShardsOk, RowsOf;
    KeysKept(st, CommitStripe(st, s, rows));
  }

  lemma CommitStripeFrame(st: State, s: StripeId, rows: map<ShardKey, ShardRow>)
    requires s in st.stripes && st.stripes[s].state.Pending? && st.stripes[s].owner in st.layout
    requires RowsOf(st, s, rows)
    ensures OtherStripes(st, CommitStripe(st, s, rows), None, {s})
  {}

  lemma CommitStripePlaces(st: State, hash: Vec -> Checksum, s: StripeId, rows: map<ShardKey, ShardRow>, i: nat)
    requires Consistent(st, hash) && NextStripe(st, s) && NewRows(st, hash, s, rows)
    requires i <= |st.layout[st.stripes[s].owner]|
    ensures var b := CommitStripe(st, s, rows); var o := st.stripes[s].owner;
            PlaceOk(b, hash, o, b.layout[o], i)
  {
    var b := CommitStripe(st, s, rows);
    var o := st.stripes[s].owner;
    var ids := st.layout[o];
    assert b.layout[o] == ids + [s];
    NewRowsOk(st, hash, s, rows);
    if i == |ids| {
      assert (ids + [s])[..i] == ids;
      StripeOkSameRow(st.stripes[s], b.stripes[s], st.content[s], s, b.shards, hash);
    } else {
      assert ObjectOk(st, hash, o);
      assert PlaceOk(st, hash, o, ids, i);
      assert (ids + [s])[..i] == ids[..i];
      PlaceParts(st, hash, o, ids, i);
      hide StripeOk, NewRows;
      assert ids[i] != s;
      RowsCarriedKept(st, b, hash, ids[i]);
    }
  }

  lemma StripeOkSameRow(a: StripeRow, b: StripeRow, data: Vec, s: StripeId, shards: map<ShardKey, ShardRow>,
                        hash: Vec -> Checksum)
    requires StripeOk(a, data, s, shards, hash) && b == a.(state := b.state, scrubbed := b.scrubbed)
    ensures StripeOk(b, data, s, shards, hash)
  {
    forall i: nat | i < b.k + b.m
      ensures RowOk(b, data, s, i, shards, hash)
    {
      assert RowOk(a, data, s, i, shards, hash);
    }
  }

  lemma CommitStripeObject(st: State, hash: Vec -> Checksum, s: StripeId, rows: map<ShardKey, ShardRow>)
    requires Consistent(st, hash) && NextStripe(st, s) && NewRows(st, hash, s, rows)
    ensures ObjectOk(CommitStripe(st, s, rows), hash, st.stripes[s].owner)
  {
    var b := CommitStripe(st, s, rows);
    var o := st.stripes[s].owner;
    assert !b.objects[o].committed && o in b.layout && o in b.objects;
    forall i: nat | i < |b.layout[o]|
      ensures PlaceOk(b, hash, o, b.layout[o], i)
    {
      CommitStripePlaces(st, hash, s, rows, i);
    }
    hide PlaceOk, Consistent;
  }

  lemma CommitStripeStep(st: State, hash: Vec -> Checksum, s: StripeId, rows: map<ShardKey, ShardRow>)
    requires Consistent(st, hash) && NextStripe(st, s) && NewRows(st, hash, s, rows)
    ensures Consistent(CommitStripe(st, s, rows), hash) && SameVisible(st, CommitStripe(st, s, rows))
  {
    hide ObjectOk, StripeOk, Preserved, StripesOk, RowsOf, KeysUnique, Flatten;
    var b := CommitStripe(st, s, rows);
    var o := st.stripes[s].owner;
    CommitStripeObject(st, hash, s, rows);
    CommitStripeTables(st, hash, s, rows);
    CommitStripeFrame(st, s, rows);
    AddedRowsOk(st, b, s, rows);
    assert OtherStripes(st, b, Some(o), {s});
    hide *;
    StepKeeps(st, b, hash, Some(o), {s});
    StepInvisible(st, b, Some(o));
  }

  // ---------------------------------------------------------------- committing an object

  /** Exactly the value of one key changes, from nothing to data. */
  ghost predicate Added(a: State, b: State, key: Key, data: Vec) {
    forall k, d: Vec :: Holds(b, k, d) <==> (if k == key then d == data else Holds(a, k, d))
  }

  /** Exactly the value of one key changes, to nothing. */
  ghost predicate Removed(a: State, b: State, key: Key) {
    forall k, d: Vec :: Holds(b, k, d) <==> (k != key && Holds(a, k, d))
  }

  lemma CommitObjectTables(st: State, hash: Vec -> Checksum, o: ObjectId, size: nat, count: nat)
    requires Consistent(st, hash) && o in st.objects
    ensures var b := CommitObject(st, o, size, count);
            StripesOk(b) && ShardsOk(b) && KeysUnique(b) && OtherObjects(st, b, Some(o))
  {
    hide ObjectOk, KeysUnique;
    KeysKept(st, CommitObject(st, o, size, count));
  }

  lemma CommitObjectOk(st: State, hash: Vec -> Checksum, o: ObjectId, size: nat, count: nat)
    requires Consistent(st, hash) && o in st.objects && !st.objects[o].committed
    requires o in st.layout && forall i :: 0 <= i < |st.layout[o]| ==> st.layout[o][i] in st.content
    requires size == |Flatten(st.layout[o], st.content)| && count == |st.layout[o]|
    ensures ObjectOk(CommitObject(st, o, size, count), hash, o)
  {
    hide StripeOk, Flatten;
    var b := CommitObject(st, o, size, count);
    assert ObjectOk(st, hash, o);
    forall i: nat | i < |b.layout[o]|
      ensures PlaceOk(b, hash, o, b.layout[o], i)
    {
      assert PlaceOk(st, hash, o, st.layout[o], i);
    }
  }

  /** Committing makes the object visible with the bytes of its stripes. */
  lemma CommitObjectStep(st: State, hash: Vec -> Checksum, o: ObjectId, size: nat, count: nat)
    requires Consistent(st, hash) && o in st.objects && !st.objects[o].committed
    requires o in st.layout && forall i :: 0 <= i < |st.layout[o]| ==> st.layout[o][i] in st.content
    requires size == |Flatten(st.layout[o], st.content)| && count == |st.layout[o]|
    ensures Consistent(CommitObject(st, o, size, count), hash)
    ensures Added(st, CommitObject(st, o, size, count), st.objects[o].key, Flatten(st.layout[o], st.content))
  {
    var b := CommitObject(st, o, size, count);
    CommitObjectTables(st, hash, o, size, count);
    StripesSame(st, b, Some(o));
    CommitObjectOk(st, hash, o, size, count);
    hide ObjectOk, OtherObjects, OtherStripes, Preserved, StripesOk, ShardsOk;
    StepKeeps(st, b, hash, Some(o), {});
    AddedFrom(st, b, hash, o, Flatten(st.layout[o], st.content));
  }

  lemma AddedFrom(a: State, b: State, hash: Vec -> Checksum, o: ObjectId, data: Vec)
    requires forall p: ObjectId, key: Key, data: Vec :: Some(p) != Some(o) ==>
               (HoldsAs(a, key, data, p) <==> HoldsAs(b, key, data, p))
    requires o in a.objects && !a.objects[o].committed && o in b.objects && KeysUnique(b)
    requires HoldsAs(b, b.objects[o].key, data, o)
    ensures Added(a, b, b.objects[o].key, data)
  {
    var key := b.objects[o].key;
    forall k, d: Vec
      ensures Holds(b, k, d) <==> (if k == key then d == data else Holds(a, k, d))
    {
      if Holds(b, k, d) {
        var p :| HoldsAs(b, k, d, p);
        assert k == key ==> p == o;
        assert p != o ==> HoldsAs(a, k, d, p);
      }
      if k != key && Holds(a, k, d) {
        var p :| HoldsAs(a, k, d, p);
        assert p != o;
        assert HoldsAs(b, k, d, p);
      }
    }
  }

  // ---------------------------------------------------------------- deleting an object

  lemma DeleteObjectTables(st: State, hash: Vec -> Checksum, o: ObjectId)
    requires Consistent(st, hash)
    ensures var b := DeleteObject(st, o);
            StripesOk(b) && KeysUnique(b) && OtherObjects(st, b, Some(o))
  {
    hide ObjectOk, ShardsOk, ShardsWithout, KeysUnique;
    KeysKept(st, DeleteObject(st, o));
  }

  lemma DeleteObjectShards(st: State, o: ObjectId)
    requires ShardsOk(st)
    ensures ShardsOk(DeleteObject(st, o))
  {}

  lemma DeleteObjectFrame(st: State, hash: Vec -> Checksum, o: ObjectId)
    requires Consistent(st, hash)
    ensures OtherStripes(st, DeleteObject(st, o), Some(o), OwnedBy(st, o))
  {
    hide ObjectOk, KeysUnique, ShardsOk;
  }

  /** Deleting removes exactly this object from view, whether or not it was committed. */
  lemma DeleteObjectStep(st: State, hash: Vec -> Checksum, o: ObjectId)
    requires Consistent(st, hash) && o in st.objects
    ensures Consistent(DeleteObject(st, o), hash)
    ensures st.objects[o].committed ==> Removed(st, DeleteObject(st, o), st.objects[o].key)
    ensures !st.objects[o].committed ==> SameVisible(st, DeleteObject(st, o))
  {
    var b := DeleteObject(st, o);
    DeleteObjectTables(st, hash, o);
    DeleteObjectShards(st, o);
    DeleteObjectFrame(st, hash, o);
    hide ObjectOk, OtherObjects, OtherStripes, Preserved, StripesOk, ShardsOk, DeleteStripes;
    StepKeeps(st, b, hash, Some(o), OwnedBy(st, o));
    if st.objects[o].committed {
      RemovedFrom(st, b, o);
    } else {
      StepInvisible(st, b, Some(o));
    }
  }

  lemma RemovedFrom(a: State, b: State, o: ObjectId)
    requires forall p: ObjectId, key: Key, data: Vec :: Some(p) != Some(o) ==>
               (HoldsAs(a, key, data, p) <==> HoldsAs(b, key, data, p))
    requires o in a.objects && a.objects[o].committed && KeysUnique(a) && o !in b.objects
    ensures Removed(a, b, a.objects[o].key)
  {
    var key := a.objects[o].key;
    forall k, d: Vec
      ensures Holds(b, k, d) <==> (k != key && Holds(a, k, d))
    {
      if Holds(b, k, d) {
        var p :| HoldsAs(b, k, d, p);
        assert p != o;
        assert HoldsAs(a, k, d, p);
      }
      if k != key && Holds(a, k, d) {
        var p :| HoldsAs(a, k, d, p);
        assert p != o;
        assert HoldsAs(b, k, d, p);
      }
    }
  }

  // ---------------------------------------------------------------- shard rows and flags

  /** Row updates that keep what the rows promise. */
  ghost predicate RowUpdate(a: State, b: State, hash: Vec -> Checksum) {
    b == a.(shards := b.shards) && b.shards.Keys == a.shards.Keys
    && (forall key :: key in b.shards && b.shards[key].disk.Some? ==>
          Path(b.shards[key].disk.value, key.stripe, key.idx) in b.written)
    && forall s :: s in a.stripes && s in a.content ==> StripeKept(a, b, hash, s)
  }

  lemma RowUpdateTables(a: State, b: State, hash: Vec -> Checksum)
    requires Consistent(a, hash) && RowUpdate(a, b, hash)
    ensures StripesOk(b) && ShardsOk(b) && KeysUnique(b)
  {
    hide ObjectOk, StripeKept, KeysUnique;
    KeysKept(a, b);
  }

  lemma RowUpdateObject(a: State, b: State, hash: Vec -> Checksum, p: ObjectId)
    requires RowUpdate(a, b, hash) && p in a.objects && ObjectOk(a, hash, p)
    ensures ObjectOk(b, hash, p)
    ensures forall key, data: Vec :: HoldsAs(a, key, data, p) <==> HoldsAs(b, key, data, p)
  {
    ObjectListed(a, hash, p);
    assert Carried(a, b, hash, p) by { hide StripeKept, ObjectOk; }
    hide *;
    ObjectCarried(a, b, hash, p);
  }

  lemma RowUpdateStep(a: State, b: State, hash: Vec -> Checksum)
    requires Consistent(a, hash) && RowUpdate(a, b, hash)
    ensures Consistent(b, hash) && SameVisible(a, b)
  {
    RowUpdateTables(a, b, hash);
    hide ObjectOk, StripeKept, HoldsAs, KeysUnique, StripesOk, ShardsOk;
    forall p: ObjectId
      ensures p in b.objects ==> ObjectOk(b, hash, p)
      ensures forall key, data: Vec :: HoldsAs(a, key, data, p) <==> HoldsAs(b, key, data, p)
    {
      if p in a.objects {
        RowUpdateObject(a, b, hash, p);
      } else {
        forall key, data: Vec
          ensures !HoldsAs(a, key, data, p) && !HoldsAs(b, key, data, p)
        {
          NotHeld(a, key, data, p);
          NotHeld(b, key, data, p);
        }
      }
    }
    StepInvisible(a, b, None);
  }

  lemma SetRowKeepsStripe(st: State, hash: Vec -> Checksum, key: ShardKey, row: ShardRow, s: StripeId)
    requires s in st.stripes && s in st.content && key in st.shards
    requires key.stripe == s ==>
               (row.checksum == st.shards[key].checksum && (st.shards[key].state == Missing ==> row.state == Missing))
               || (Fits(st.stripes[s], st.content[s]) && key.idx < st.stripes[s].k + st.stripes[s].m
                   && row.checksum == Some(hash(ShardOf(st.stripes[s], st.content[s], key.idx))))
    ensures StripeKept(st, SetRow(st, key, row), hash, s)
  {
    var b := SetRow(st, key, row);
    if StripeOk(st.stripes[s], st.content[s], s, st.shards, hash) {
      hide ShardOf;
      forall i: nat | i < st.stripes[s].k + st.stripes[s].m
        ensures RowOk(st.stripes[s], st.content[s], s, i, b.shards, hash)
      {
        assert RowOk(st.stripes[s], st.content[s], s, i, st.shards, hash);
      }
    }
  }

  /** A row may change its health and, within its own checksum or to the checksum of the
      encoded shard, its place. */
  lemma SetRowStep(st: State, hash: Vec -> Checksum, key: ShardKey, row: ShardRow)
    requires Consistent(st, hash) && key in st.shards
    requires row.disk.Some? ==> Path(row.disk.value, key.stripe, key.idx) in st.written
    requires (row.checksum == st.shards[key].checksum && (st.shards[key].state == Missing ==> row.state == Missing))
             || (key.stripe in st.stripes && key.stripe in st.content
                 && Fits(st.stripes[key.stripe], st.content[key.stripe])
                 && key.idx < st.stripes[key.stripe].k + st.stripes[key.stripe].m
                 && row.checksum == Some(hash(ShardOf(st.stripes[key.stripe], st.content[key.stripe], key.idx))))
    ensures Consistent(SetRow(st, key, row), hash) && SameVisible(st, SetRow(st, key, row))
  {
    var b := SetRow(st, key, row);
    hide ObjectOk, StripeKept, ShardOf, KeysUnique, StripesOk;
    forall s | s in st.stripes && s in st.content
      ensures StripeKept(st, b, hash, s)
    {
      SetRowKeepsStripe(st, hash, key, row, s);
    }
    RowUpdateStep(st, b, hash);
  }

  lemma SetStripeStateTables(st: State, hash: Vec -> Checksum, s: StripeId, state: StripeState, scrubbed: nat)
    requires Consistent(st, hash) && s in st.stripes && !st.stripes[s].state.Pending? && !state.Pending?
    ensures var b := SetStripeState(st, s, state, scrubbed);
            StripesOk(b) && KeysUnique(b) && OtherObjects(st, b, None)
  {
    hide ObjectOk, KeysUnique, ShardsOk;
    KeysKept(st, SetStripeState(st, s, state, scrubbed));
  }

  lemma SetStripeStateFrame(st: State, s: StripeId, state: StripeState, scrubbed: nat)
    requires s in st.stripes && !st.stripes[s].state.Pending? && !state.Pending?
    ensures OtherStripes(st, SetStripeState(st, s, state, scrubbed), None, {})
    ensures ShardsOk(st) ==> ShardsOk(SetStripeState(st, s, state, scrubbed))
  {}

  lemma SetStripeStateStep(st: State, hash: Vec -> Checksum, s: StripeId, state: StripeState, scrubbed: nat)
    requires Consistent(st, hash) && s in st.stripes && !st.stripes[s].state.Pending? && !state.Pending?
    ensures var b := SetStripeState(st, s, state, scrubbed); Consistent(b, hash) && SameVisible(st, b)
  {
    var b := SetStripeState(st, s, state, scrubbed);
    SetStripeStateTables(st, hash, s, state, scrubbed);
    SetStripeStateFrame(st, s, state, scrubbed);
    hide *;
    StepKeeps(st, b, hash, None, {});
    StepInvisible(st, b, None);
  }

  // ---------------------------------------------------------------- restriping

  /** Staged stripe news[i] replaces stripe ids[i]: same owner, position, offset and bytes. */
  ghost predicate Replaces(st: State, hash: Vec -> Checksum, o: ObjectId, ids: seq<StripeId>, news: seq<StripeId>,
                           i: nat)
    requires i < |ids| && i < |news|
  {
    ids[i] in st.stripes && ids[i] in st.content && news[i] in st.stripes && news[i] in st.content
    && st.content[news[i]] == st.content[ids[i]]
    && var row := st.stripes[news[i]];
    row.state.Pending? && row.owner == o && row.seqno == i && row.offset == st.stripes[ids[i]].offset
    && StripeOk(row, st.content[news[i]], news[i], st.shards, hash)
  }

  lemma SwapTables(st: State, hash: Vec -> Checksum, o: ObjectId, news: seq<StripeId>)
    requires Consistent(st, hash) && o in st.objects && o in st.layout
    requires forall i :: 0 <= i < |news| ==> news[i] in st.stripes && st.stripes[news[i]].owner == o
    ensures var b := SwapStripes(st, o, news); StripesOk(b) && KeysUnique(b) && OtherObjects(st, b, Some(o))
  {
    hide ObjectOk, KeysUnique, ShardsOk, ShardsWithout, StripesOk, OtherObjects;
    SwapRows(st, o, news);
    SwapObjects(st, o, news);
    KeysKept(st, SwapStripes(st, o, news));
  }

  lemma SwapRows(st: State, o: ObjectId, news: seq<StripeId>)
    requires StripesOk(st) && o in st.objects && o in st.layout
    requires forall i :: 0 <= i < |news| ==> news[i] in st.stripes && st.stripes[news[i]].owner == o
    ensures StripesOk(SwapStripes(st, o, news))
  {
    hide ShardsWithout;
  }

  lemma SwapObjects(st: State, o: ObjectId, news: seq<StripeId>)
    requires o in st.objects && o in st.layout
    ensures OtherObjects(st, SwapStripes(st, o, news), Some(o))
  {
    hide ShardsWithout;
  }

  lemma SwapShards(st: State, o: ObjectId, news: seq<StripeId>)
    requires ShardsOk(st) && o in st.layout
    ensures ShardsOk(SwapStripes(st, o, news))
  {}

  lemma SwapFrame(st: State, hash: Vec -> Checksum, o: ObjectId, news: seq<StripeId>)
    requires Consistent(st, hash) && o in st.objects && o in st.layout
    requires forall i :: 0 <= i < |news| ==> news[i] in st.stripes && st.stripes[news[i]].owner == o
    ensures OtherStripes(st, SwapStripes(st, o, news), Some(o), OwnedBy(st, o))
  {
    hide PlaceOk, KeysUnique, ShardsOk;
    forall s | s in st.layout[o]
      ensures s in OwnedBy(st, o)
    {
      ListedByOwner(st, hash, o, s);
    }
  }

  lemma SwapPlace(st: State, hash: Vec -> Checksum, o: ObjectId, news: seq<StripeId>, i: nat)
    requires ObjectOk(st, hash, o) && i < |news| && |news| == |st.layout[o]|
    requires forall j :: 0 <= j < |news| ==> Replaces(st, hash, o, st.layout[o], news, j)
    ensures PlaceOk(SwapStripes(st, o, news), hash, o, news, i)
  {
    hide StripeOk;
    var b, ids := SwapStripes(st, o, news), st.layout[o];
    assert PlaceOk(st, hash, o, ids, i);
    assert Replaces(st, hash, o, ids, news, i);
    if news[i] in ids {
      ListedByOwner(st, hash, o, news[i]);
      assert false;
    }
    forall j | 0 <= j < i
      ensures ids[..i][j] in st.content && news[..i][j] in st.content
              && st.content[ids[..i][j]] == st.content[news[..i][j]]
    {
      assert Replaces(st, hash, o, ids, news, j);
    }
    FlattenRenamed(ids[..i], news[..i], st.content);
    RowsKeptBySwap(st, hash, o, news, news[i]);
  }

  lemma RowsKeptBySwap(st: State, hash: Vec -> Checksum, o: ObjectId, news: seq<StripeId>, s: StripeId)
    requires o in st.layout && s in st.stripes && s in st.content && s in news && s !in st.layout[o]
    requires StripeOk(st.stripes[s], st.content[s], s, st.shards, hash)
    ensures var b := SwapStripes(st, o, news);
            s in b.stripes && b.stripes[s] == st.stripes[s].(state := Committed)
            && StripeOk(b.stripes[s], st.content[s], s, b.shards, hash)
  {
    var b := SwapStripes(st, o, news);
    StripeOkSameRow(st.stripes[s], b.stripes[s], st.content[s], s, st.shards, hash);
    forall i: nat | i < st.stripes[s].k + st.stripes[s].m
      ensures RowOk(b.stripes[s], st.content[s], s, i, b.shards, hash)
    {
      assert RowOk(b.stripes[s], st.content[s], s, i, st.shards, hash);
    }
  }

  lemma SwapObjectOk(st: State, hash: Vec -> Checksum, o: ObjectId, news: seq<StripeId>)
    requires ObjectOk(st, hash, o) && |news| == |st.layout[o]|
    requires forall j :: 0 <= j < |news| ==> Replaces(st, hash, o, st.layout[o], news, j)
    ensures ObjectOk(SwapStripes(st, o, news), hash, o)
    ensures forall key, data: Vec :: HoldsAs(st, key, data, o) <==> HoldsAs(SwapStripes(st, o, news), key, data, o)
  {
    var b, ids := SwapStripes(st, o, news), st.layout[o];
    forall i: nat | i < |news|
      ensures PlaceOk(b, hash, o, b.layout[o], i)
    {
      SwapPlace(st, hash, o, news, i);
    }
    hide PlaceOk, StripeOk;
    forall j: nat | j < |news|
      ensures ids[j] in st.content && news[j] in st.content && st.content[ids[j]] == st.content[news[j]]
    {
      assert Replaces(st, hash, o, ids, news, j);
    }
    FlattenRenamed(ids, news, st.content);
  }

  /** Swapping in stripes that hold the same bytes is invisible. */
  lemma SwapStripesStep(st: State, hash: Vec -> Checksum, o: ObjectId, news: seq<StripeId>)
    requires Consistent(st, hash) && o in st.objects && o in st.layout && |news| == |st.layout[o]|
    requires forall j :: 0 <= j < |news| ==> Replaces(st, hash, o, st.layout[o], news, j)
    ensures Consistent(SwapStripes(st, o, news), hash) && SameVisible(st, SwapStripes(st, o, news))
  {
    var b := SwapStripes(st, o, news);
    assert ObjectOk(st, hash, o);
    SwapObjectOk(st, hash, o, news);
    forall i: nat | i < |news|
      ensures news[i] in st.stripes && st.stripes[news[i]].owner == o
    {
      assert Replaces(st, hash, o, st.layout[o], news, i);
    }
    hide ObjectOk, Replaces, SwapStripes;
    SwapTables(st, hash, o, news);
    SwapShards(st, o, news);
    SwapFrame(st, hash, o, news);
    hide *;
    StepKeeps(st, b, hash, Some(o), OwnedBy(st, o));
    SameObjects(st, b);
  }

  lemma SameObjects(a: State, b: State)
    requires forall p: ObjectId, key: Key, data: Vec :: HoldsAs(a, key, data, p) <==> HoldsAs(b, key, data, p)
    ensures SameVisible(a, b)
  {
    hide HoldsAs;
  }
}
