/** Which visible stripes can still be decoded from the disks, before and after an operation. */
module StoreDecoding {
  import opened LinearAlgebra
  import opened StoreTypes
  import opened StoreState
  import opened StoreSteps
  import opened StoreViews
  import opened StoreWriting
  import opened StorePutting

  /** The stripes that committed objects consist of. */
  ghost function VisibleStripes(st: State): set<StripeId> {
    set s | s in st.stripes && IsVisible(st, s)
  }

  ghost predicate IsVisible(st: State, s: StripeId)
    requires s in st.stripes
  {
    !st.stripes[s].state.Pending? && st.stripes[s].owner in st.objects && st.objects[st.stripes[s].owner].committed
  }

  /** At least k shards of the stripe verify. */
  ghost predicate Decodable(st: State, v: View, hash: Vec -> Checksum, s: StripeId) {
    s in st.stripes && |v.Good(hash, s, st.stripes[s].k + st.stripes[s].m)| >= st.stripes[s].k
  }

  /** Some stripe of the object cannot be decoded. */
  ghost predicate SomeLost(st: State, v: View, hash: Vec -> Checksum, o: ObjectId) {
    o in st.layout && exists i :: 0 <= i < |st.layout[o]| && !Decodable(st, v, hash, st.layout[o][i])
  }

  lemma SomeLostAt(st: State, v: View, hash: Vec -> Checksum, o: ObjectId, i: nat)
    requires o in st.layout && i < |st.layout[o]| && !Decodable(st, v, hash, st.layout[o][i])
    ensures SomeLost(st, v, hash, o)
  {
    hide Decodable;
  }

  /** Every visible stripe that could be decoded before, or was not visible before, can be decoded. */
  ghost predicate StaysDecodable(a: State, v: View, b: State, w: View, hash: Vec -> Checksum) {
    forall s :: s in VisibleStripes(b) && (s in VisibleStripes(a) ==> Decodable(a, v, hash, s)) ==>
        Decodable(b, w, hash, s)
  }

  /** Whatever happens in a row, crashes and recoveries included. */
  lemma StaysDecodableTrans(a: State, v: View, b: State, w: View, c: State, x: View, hash: Vec -> Checksum)
    requires StaysDecodable(a, v, b, w, hash) && StaysDecodable(b, w, c, x, hash)
    ensures StaysDecodable(a, v, c, x, hash)
  {
    hide Decodable, VisibleStripes;
  }

  lemma StaysDecodableSame(st: State, v: View, hash: Vec -> Checksum)
    ensures StaysDecodable(st, v, st, v, hash)
  {
    hide Decodable, VisibleStripes;
  }

  /** A stripe carried over with its row, whose shards were spared. */
  lemma SparedDecodable(a: State, v: View, b: State, w: View, hash: Vec -> Checksum, s: StripeId, keep: set<StripeId>)
    requires Spares(v, w, hash, keep) && s in keep && s in a.stripes && s in b.stripes
    requires SameRow(a.stripes[s], b.stripes[s])
    ensures Decodable(a, v, hash, s) ==> Decodable(b, w, hash, s)
  {
    hide View.Read;
    var n := a.stripes[s].k + a.stripes[s].m;
    SubsetSize(v.Good(hash, s, n).Keys, w.Good(hash, s, n).Keys);
  }

  lemma NotDecodable(st: State, v: View, hash: Vec -> Checksum, s: StripeId)
    requires s in st.stripes && |v.Good(hash, s, st.stripes[s].k + st.stripes[s].m)| < st.stripes[s].k
    ensures !Decodable(st, v, hash, s)
  {}

  lemma PlacedDecodable(st: State, v: View, hash: Vec -> Checksum, ids: seq<StripeId>, k: nat, m: nat, need: nat,
                        i: nat)
    requires AllPlaced(st, v, hash, ids, k, m, need) && k <= need && i < |ids|
    ensures Decodable(st, v, hash, ids[i])
  {
    hide View.Read, Apart, RowsPresent;
    assert PlacedStripe(st, v, hash, ids[i], k, m, need);
  }

  /** Every visible stripe was visible before and spared, or can be decoded anyway. */
  lemma DecodableFrom(a: State, v: View, b: State, w: View, hash: Vec -> Checksum, keep: set<StripeId>)
    requires Spares(v, w, hash, keep)
    requires forall s :: s in VisibleStripes(b) && !Decodable(b, w, hash, s) ==>
               s in VisibleStripes(a) && s in keep && SameRow(a.stripes[s], b.stripes[s])
    ensures StaysDecodable(a, v, b, w, hash)
  {
    hide Decodable, View.Read, SameRow, Spares, IsVisible;
    forall s | s in VisibleStripes(b) && (s in VisibleStripes(a) ==> Decodable(a, v, hash, s))
      ensures Decodable(b, w, hash, s)
    {
      if !Decodable(b, w, hash, s) {
        SparedDecodable(a, v, b, w, hash, s, keep);
      }
    }
  }

  /** Objects and stripes only disappear. */
  ghost predicate Shrunk(a: State, b: State) {
    (forall o :: o in b.objects ==> o in a.objects && b.objects[o] == a.objects[o])
    && (forall s :: s in b.stripes ==> s in a.stripes && b.stripes[s] == a.stripes[s])
  }

  lemma ShrunkDecodable(a: State, v: View, b: State, w: View, hash: Vec -> Checksum, keep: set<StripeId>)
    requires Shrunk(a, b) && Spares(v, w, hash, keep) && VisibleStripes(b) <= keep
    ensures StaysDecodable(a, v, b, w, hash)
  {
    hide Decodable, View.Read, Spares;
    DecodableFrom(a, v, b, w, hash, keep);
  }

  lemma ShrunkVisible(a: State, v: View, b: State, w: View, hash: Vec -> Checksum)
    requires Shrunk(a, b) && Spares(v, w, hash, VisibleStripes(a))
    ensures StaysDecodable(a, v, b, w, hash)
  {
    hide StaysDecodable, Spares;
    ShrunkDecodable(a, v, b, w, hash, VisibleStripes(a));
  }

  /** Removing an object takes none of the other objects' shards. */
  lemma RemovedDecodable(st: State, v: View, w: View, hash: Vec -> Checksum, o: ObjectId)
    requires w.disks == v.disks && FilesOutside(v.files, w.files, OwnedBy(st, o)) && v.shards == st.shards
    requires w.shards == DeleteObject(st, o).shards
    ensures StaysDecodable(st, v, DeleteObject(st, o), w, hash)
  {
    var b := DeleteObject(st, o);
    var keep := VisibleStripes(b);
    assert Shrunk(st, b) && keep !! OwnedBy(st, o) && w.shards == ShardsWithout(v.shards, OwnedBy(st, o));
    hide *;
    OwnedNewSpares(v, w, hash, OwnedBy(st, o), keep);
    ShrunkDecodable(st, v, b, w, hash, keep);
  }

  /** Stripes of other objects than o are old ones; those of o can be decoded or are old ones too. */
  lemma AddedDecodable(a: State, v: View, b: State, w: View, hash: Vec -> Checksum, o: ObjectId, keep: set<StripeId>)
    requires NewStripes(a, b, o) && Spares(v, w, hash, keep) && keep <= a.used
    requires forall p :: p in b.objects && b.objects[p].committed && p != o ==> p in a.objects && a.objects[p].committed
    requires forall s :: s in VisibleStripes(b) && b.stripes[s].owner != o && s in a.used ==> s in keep
    requires forall s :: s in VisibleStripes(b) && b.stripes[s].owner == o ==>
               Decodable(b, w, hash, s) || (s in VisibleStripes(a) && s in keep)
    ensures StaysDecodable(a, v, b, w, hash)
  {
    hide Decodable, View.Read, Spares;
    DecodableFrom(a, v, b, w, hash, keep);
  }

  /** While object o is invisible, only what was visible before is visible. */
  lemma HiddenDecodable(a: State, v: View, b: State, w: View, hash: Vec -> Checksum, o: ObjectId)
    requires NewStripes(a, b, o) && Spares(v, w, hash, a.used)
    requires o !in b.objects || !b.objects[o].committed
    requires forall p :: p in b.objects && p != o ==> p in a.objects && b.objects[p] == a.objects[p]
    ensures StaysDecodable(a, v, b, w, hash)
  {
    hide Decodable, View.Read, Spares, NewStripes;
    AddedDecodable(a, v, b, w, hash, o, a.used);
  }

  /** A put that has not committed its object, which now has this row. */
  lemma StillHidden(a: State, v: View, b: State, w: View, hash: Vec -> Checksum, o: ObjectId, row: ObjectRow)
    requires NewStripes(a, b, o) && Spares(v, w, hash, a.used) && !row.committed
    requires b.objects == a.objects[o := row] || b.objects == ObjectsWithout(a.objects[o := row], o)
    ensures StaysDecodable(a, v, b, w, hash)
  {
    hide NewStripes, Spares, StaysDecodable;
    HiddenDecodable(a, v, b, w, hash, o);
  }

  /** A put that has committed its object: done is the state before that step. */
  lemma NowShown(a: State, v: View, done: State, b: State, w: View, hash: Vec -> Checksum, o: ObjectId, row: ObjectRow,
                 k: nat, m: nat, need: nat)
    requires NewStripes(a, done, o) && b.stripes == done.stripes && b.used == done.used && Spares(v, w, hash, a.used)
    requires Consistent(b, hash) && o in b.layout && b.objects == a.objects[o := row]
    requires AllPlaced(b, w, hash, b.layout[o], k, m, need) && k <= need
    ensures StaysDecodable(a, v, b, w, hash)
  {
    assert NewStripes(a, b, o);
    hide NewStripes, Spares, StaysDecodable, Consistent, AllPlaced;
    PutDecodable(a, v, b, w, hash, o, k, m, need);
  }

  lemma VisibleListed(st: State, hash: Vec -> Checksum, s: StripeId)
    requires Consistent(st, hash) && s in VisibleStripes(st)
    ensures st.stripes[s].owner in st.layout && s in st.layout[st.stripes[s].owner] && s in st.used
  {
    hide ObjectOk;
  }

  /** A new object of well placed stripes. */
  lemma PutDecodable(a: State, v: View, b: State, w: View, hash: Vec -> Checksum, o: ObjectId, k: nat, m: nat,
                     need: nat)
    requires NewStripes(a, b, o) && Spares(v, w, hash, a.used) && Consistent(b, hash) && o in b.layout
    requires forall p :: p in b.objects && p != o ==> p in a.objects && b.objects[p] == a.objects[p]
    requires AllPlaced(b, w, hash, b.layout[o], k, m, need) && k <= need
    ensures StaysDecodable(a, v, b, w, hash)
  {
    hide Decodable, View.Read, Spares, NewStripes, Consistent, AllPlaced;
    OwnDecodable(b, w, hash, o, k, m, need);
    AddedDecodable(a, v, b, w, hash, o, a.used);
  }

  lemma OwnDecodable(st: State, v: View, hash: Vec -> Checksum, o: ObjectId, k: nat, m: nat, need: nat)
    requires Consistent(st, hash) && o in st.layout && AllPlaced(st, v, hash, st.layout[o], k, m, need) && k <= need
    ensures forall s :: s in VisibleStripes(st) && st.stripes[s].owner == o ==> Decodable(st, v, hash, s)
  {
    hide Decodable, View.Read, Consistent, AllPlaced;
    forall s | s in VisibleStripes(st) && st.stripes[s].owner == o
      ensures Decodable(st, v, hash, s)
    {
      VisibleListed(st, hash, s);
      var i :| 0 <= i < |st.layout[o]| && st.layout[o][i] == s;
      PlacedDecodable(st, v, hash, st.layout[o], k, m, need, i);
    }
  }

  /** Before the swap of a restripe, the stripes listed are the old ones. */
  lemma StagedDecodable(a: State, v: View, b: State, w: View, hash: Vec -> Checksum, o: ObjectId)
    requires Consistent(a, hash) && Consistent(b, hash) && NewStripes(a, b, o) && Spares(v, w, hash, a.used)
    requires b.layout == a.layout && b.objects == a.objects
    ensures StaysDecodable(a, v, b, w, hash)
  {
    hide Decodable, View.Read, Spares, Consistent;
    forall s | s in VisibleStripes(b)
      ensures s in VisibleStripes(a) && s in a.used
    {
      VisibleListed(b, hash, s);
      ListedVisible(a, hash, b.stripes[s].owner, s);
    }
    AddedDecodable(a, v, b, w, hash, o, a.used);
  }

  lemma ListedVisible(st: State, hash: Vec -> Checksum, o: ObjectId, s: StripeId)
    requires Consistent(st, hash) && o in st.objects && st.objects[o].committed && o in st.layout && s in st.layout[o]
    ensures s in VisibleStripes(st) && s in st.used && st.stripes[s].owner == o
  {
    assert ObjectOk(st, hash, o);
    ListedByOwner(st, hash, o, s);
    hide ObjectOk, KeysUnique, ShardsOk;
  }

  /** After the swap of a restripe, the object consists of well placed stripes. */
  lemma SwappedDecodable(a: State, v: View, b: State, w: View, hash: Vec -> Checksum, o: ObjectId, k: nat, m: nat,
                         need: nat, gone: set<StripeId>)
    requires Consistent(b, hash) && NewStripes(a, b, o) && Spares(v, w, hash, a.used - gone)
    requires b.objects == a.objects && o in b.layout
    requires forall s :: s in gone && s in b.stripes ==> b.stripes[s].owner == o
    requires AllPlaced(b, w, hash, b.layout[o], k, m, need) && k <= need
    ensures StaysDecodable(a, v, b, w, hash)
  {
    hide Decodable, View.Read, Spares, NewStripes, Consistent, AllPlaced;
    OwnDecodable(b, w, hash, o, k, m, need);
    AddedDecodable(a, v, b, w, hash, o, a.used - gone);
  }
}
