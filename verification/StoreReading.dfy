/** Reading stripes: marking bad shards, collecting good ones, and cutting ranges out of objects. */
module StoreReading {
  import opened Wrappers
  import opened LinearAlgebra
  import opened Codec
  import opened Cauchy
  import opened StoreTypes
  import opened StoreState
  import opened StoreSteps
  import opened StoreViews

  /** Only the health of shard rows differs, and missing shards stay missing. */
  ghost predicate Marked(a: map<ShardKey, ShardRow>, b: map<ShardKey, ShardRow>) {
    a.Keys == b.Keys
    && forall key :: key in a ==>
         b[key] == a[key].(state := b[key].state) && (a[key].state == Missing ==> b[key].state == Missing)
  }

  lemma MarkedTrans(a: map<ShardKey, ShardRow>, b: map<ShardKey, ShardRow>, c: map<ShardKey, ShardRow>)
    requires Marked(a, b) && Marked(b, c)
    ensures Marked(a, c)
  {}

  /** Every stripe's row, data and shard rows go over, and so does the data of all others. */
  ghost predicate AllKept(a: State, b: State, hash: Vec -> Checksum) {
    (forall s :: s in a.content ==> s in b.content && b.content[s] == a.content[s])
    && forall s :: s in a.stripes && s in a.content ==> StripeKept(a, b, hash, s)
  }

  lemma AllKeptTrans(a: State, b: State, c: State, hash: Vec -> Checksum)
    requires AllKept(a, b, hash) && AllKept(b, c, hash)
    ensures AllKept(a, c, hash)
  {
    hide StripeOk;
  }

  lemma MarkedStep(a: State, b: State, hash: Vec -> Checksum)
    requires Consistent(a, hash) && Marked(a.shards, b.shards) && b == a.(shards := b.shards)
    ensures Consistent(b, hash) && SameVisible(a, b) && AllKept(a, b, hash)
  {
    MarkedRows(a, b, hash);
    hide *;
    RowUpdateStep(a, b, hash);
  }

  lemma MarkedRows(a: State, b: State, hash: Vec -> Checksum)
    requires Consistent(a, hash) && Marked(a.shards, b.shards) && b == a.(shards := b.shards)
    ensures RowUpdate(a, b, hash) && AllKept(a, b, hash)
  {
    hide StripeKept, ObjectOk, StripesOk, KeysUnique;
    forall s | s in a.stripes && s in a.content
      ensures StripeKept(a, b, hash, s)
    {
      assert RowsCarried(a, b, s);
      RowsCarriedKept(a, b, hash, s);
    }
  }

  lemma SetStateKept(st: State, hash: Vec -> Checksum, s: StripeId, state: StripeState, scrubbed: nat)
    requires s in st.stripes && !st.stripes[s].state.Pending? && !state.Pending?
    ensures AllKept(st, SetStripeState(st, s, state, scrubbed), hash)
  {
    var b := SetStripeState(st, s, state, scrubbed);
    hide StripeKept;
    forall t | t in st.stripes && t in st.content
      ensures StripeKept(st, b, hash, t)
    {
      assert RowsCarried(st, b, t);
      RowsCarriedKept(st, b, hash, t);
    }
  }

  /** Good shards read so far. */
  ghost predicate Collected(got: map<nat, Vec>, v: View, hash: Vec -> Checksum, s: StripeId, n: nat) {
    forall i :: i in got ==> i < n && v.Read(hash, s, i) == Some(got[i])
  }

  lemma CollectedSame(got: map<nat, Vec>, a: View, b: View, hash: Vec -> Checksum, s: StripeId, n: nat)
    requires Collected(got, a, hash, s, n) && (SameReads(a, b, hash) || SameReads(b, a, hash))
    ensures Collected(got, b, hash, s, n)
  {
    hide View.Read;
  }

  lemma NothingRead(v: View, hash: Vec -> Checksum)
    ensures SameReads(v, v, hash) && Marked(v.shards, v.shards) && Worn(v.disks, v.disks)
  {}

  lemma ReadOne(a: View, b: View, c: View, hash: Vec -> Checksum, s: StripeId, i: nat)
    requires SameReads(a, b, hash) && SameReads(b, c, hash)
    ensures SameReads(a, c, hash) && b.Read(hash, s, i) == a.Read(hash, s, i)
  {
    hide View.Read;
  }

  /** Rows differ at most at the given keys. */
  ghost predicate SameRows(a: map<ShardKey, ShardRow>, b: map<ShardKey, ShardRow>, but: set<ShardKey>) {
    a.Keys == b.Keys && forall key :: key in a && key !in but ==> b[key] == a[key]
  }

  /** The rows of these shards were read off the table as it is. */
  ghost predicate UpToDate(rows: map<ShardKey, ShardRow>, shards: map<ShardKey, ShardRow>, s: StripeId, i: nat,
                           n: nat) {
    forall j: nat :: i <= j < n ==>
      ShardKey(s, j) in shards && ShardKey(s, j) in rows && rows[ShardKey(s, j)] == shards[ShardKey(s, j)]
  }

  /** From shard n on the rows of the stripe are the same. */
  ghost predicate RowsAfter(a: map<ShardKey, ShardRow>, b: map<ShardKey, ShardRow>, s: StripeId, n: nat) {
    forall j: nat :: j >= n && ShardKey(s, j) in a ==>
      ShardKey(s, j) in b && b[ShardKey(s, j)] == a[ShardKey(s, j)]
  }

  lemma UpToDateRow(rows: map<ShardKey, ShardRow>, shards: map<ShardKey, ShardRow>, s: StripeId, i: nat, n: nat)
    requires UpToDate(rows, shards, s, i, n) && i < n
    ensures ShardKey(s, i) in shards && ShardKey(s, i) in rows && rows[ShardKey(s, i)] == shards[ShardKey(s, i)]
  {}

  lemma UpToDateNext(rows: map<ShardKey, ShardRow>, a: map<ShardKey, ShardRow>, b: map<ShardKey, ShardRow>,
                     s: StripeId, i: nat, n: nat)
    requires SameRows(a, b, {ShardKey(s, i)}) && UpToDate(rows, a, s, i, n)
    ensures UpToDate(rows, b, s, i + 1, n)
  {}

  lemma RowsAfterNext(start: map<ShardKey, ShardRow>, a: map<ShardKey, ShardRow>, b: map<ShardKey, ShardRow>,
                      s: StripeId, i: nat, n: nat)
    requires SameRows(a, b, {ShardKey(s, i)}) && RowsAfter(start, a, s, n) && i < n
    ensures RowsAfter(start, b, s, n)
  {}

  ghost predicate AllRows(rows: map<ShardKey, ShardRow>, s: StripeId, n: nat) {
    forall i :: 0 <= i < n ==> ShardKey(s, i) in rows
  }

  lemma UpToDateFrom(rows: map<ShardKey, ShardRow>, shards: map<ShardKey, ShardRow>, s: StripeId, i: nat, n: nat,
                     all: nat)
    requires AllRows(rows, s, all) && n <= all
    requires rows == shards || RowsAfter(rows, shards, s, i)
    ensures UpToDate(rows, shards, s, i, n)
  {}

  /** Whichever of these shards can be read is in hand. */
  ghost predicate AllSought(got: map<nat, Vec>, v: View, hash: Vec -> Checksum, s: StripeId, first: nat, n: nat) {
    forall i: nat :: first <= i < n && v.Read(hash, s, i).Some? ==> i in got
  }

  lemma NothingSought(got: map<nat, Vec>, v: View, hash: Vec -> Checksum, s: StripeId, first: nat, n: nat)
    ensures AllSought(got, v, hash, s, first, first) && RowsAfter(v.shards, v.shards, s, n)
  {}

  lemma SoughtNext(got: map<nat, Vec>, v: View, hash: Vec -> Checksum, s: StripeId, first: nat, i: nat, r: Option<Vec>)
    requires AllSought(got, v, hash, s, first, i) && r == v.Read(hash, s, i)
    ensures AllSought(if r.Some? then got[i := r.value] else got, v, hash, s, first, i + 1)
  {
    hide View.Read;
  }

  lemma CollectOne(got: map<nat, Vec>, v: View, hash: Vec -> Checksum, s: StripeId, i: nat, r: Option<Vec>)
    requires Collected(got, v, hash, s, i) && r == v.Read(hash, s, i)
    ensures Collected(if r.Some? then got[i := r.value] else got, v, hash, s, i + 1)
  {
    hide View.Read;
  }

  lemma CollectedMore(got: map<nat, Vec>, v: View, hash: Vec -> Checksum, s: StripeId, i: nat, n: nat)
    requires Collected(got, v, hash, s, i) && i <= n
    ensures Collected(got, v, hash, s, n)
  {
    hide View.Read;
  }

  lemma CollectedNone(v: View, hash: Vec -> Checksum, s: StripeId)
    ensures Collected(map[], v, hash, s, 0)
  {}

  /** Of two runs over consecutive shards, the second starting from what the first got. */
  lemma ReadInTwo(first: map<nat, Vec>, got: map<nat, Vec>, before: View, mid: View, hash: Vec -> Checksum, s: StripeId,
                  k: nat, m: nat)
    requires SameReads(before, mid, hash) && first.Keys <= got.Keys && |first| < k
    requires AllSought(first, before, hash, s, 0, k) && (|got| >= k || AllSought(got, mid, hash, s, k, k + m))
    ensures |got| >= k || AllSought(got, before, hash, s, 0, k + m)
  {
    hide View.Read;
  }

  /** Enough were got exactly if enough can be read. */
  lemma EnoughCollected(got: map<nat, Vec>, v: View, hash: Vec -> Checksum, s: StripeId, n: nat, k: nat)
    requires Collected(got, v, hash, s, n)
    requires |got| >= k || AllSought(got, v, hash, s, 0, n)
    ensures |got| >= k <==> |v.Good(hash, s, n)| >= k
  {
    hide View.Read, Collected;
    CollectedSize(got, v, hash, s, n);
  }

  lemma CollectedSize(got: map<nat, Vec>, v: View, hash: Vec -> Checksum, s: StripeId, n: nat)
    requires Collected(got, v, hash, s, n)
    ensures |got| <= |v.Good(hash, s, n)|
    ensures (forall i: nat :: i < n && v.Read(hash, s, i).Some? ==> i in got) ==> got == v.Good(hash, s, n)
  {
    hide View.Read;
    var good := v.Good(hash, s, n);
    assert |got| == |got.Keys| && |good| == |good.Keys|;
    SubsetSize(got.Keys, good.Keys);
  }

  /** What was collected decodes to the stripe's data. */
  lemma CollectedFromStripe(got: map<nat, Vec>, v: View, hash: Vec -> Checksum, s: StripeId, row: StripeRow, data: Vec)
    requires Injective(hash) && StripeOk(row, data, s, v.shards, hash) && Collected(got, v, hash, s, row.k + row.m)
    ensures ShardMap(got, row.k, row.m, row.size) && FromStripe(got, data, row.k, row.m, row.size)
    ensures ValidParameters(row.k, row.m) && |data| == row.len
  {
    hide View.Read, ShardOf, Injective;
    forall i | i in got
      ensures i < row.k + row.m && IsShard(got[i], i, data, row.k, row.m, row.size) && |got[i]| == row.size
    {
      VerifiedIsEncoded(row, data, s, i, v, hash);
    }
  }

  lemma StripeOkParts(row: StripeRow, data: Vec, s: StripeId, shards: map<ShardKey, ShardRow>, hash: Vec -> Checksum)
    requires StripeOk(row, data, s, shards, hash)
    ensures Fits(row, data) && ValidParameters(row.k, row.m)
    ensures AllRows(shards, s, row.k + row.m)
    ensures forall i: nat :: i < row.k + row.m ==> ShardKey(s, i) in shards
  {
    forall i: nat | i < row.k + row.m
      ensures ShardKey(s, i) in shards
    {
      assert RowOk(row, data, s, i, shards, hash);
    }
  }

  lemma SameVisibleTrans(a: State, b: State, c: State)
    requires SameVisible(a, b) && SameVisible(b, c)
    ensures SameVisible(a, c)
  {
    hide Holds;
  }

  /** The stripes still to be listed are those from position n on. */
  ghost predicate Remaining(mine: set<StripeId>, stripes: map<StripeId, StripeRow>, list: seq<StripeId>, n: nat) {
    (forall s :: s in mine ==> s in stripes && n <= stripes[s].seqno < |list| && list[stripes[s].seqno] == s)
    && (forall j :: n <= j < |list| ==> list[j] in mine && list[j] in stripes && stripes[list[j]].seqno == j)
  }

  lemma RemainingNext(mine: set<StripeId>, stripes: map<StripeId, StripeRow>, list: seq<StripeId>, n: nat, s: StripeId)
    requires Remaining(mine, stripes, list, n) && s in mine && mine <= stripes.Keys
    requires forall t :: t in mine ==> stripes[s].seqno <= stripes[t].seqno
    ensures n < |list| && s == list[n] && Remaining(mine - {s}, stripes, list, n + 1)
  {
    assert n < |list|;
    assert list[n] in mine;
  }

  lemma RemainingHead(mine: set<StripeId>, stripes: map<StripeId, StripeRow>, list: seq<StripeId>, n: nat)
    requires Remaining(mine, stripes, list, n) && n < |list|
    ensures mine != {}
  {
    assert list[n] in mine;
  }

  /** The bytes [start, end) of data, as far as data goes. */
  function Slice(data: Vec, start: nat, end: nat): (r: Vec) {
    var stop := if end < |data| then end else |data|;
    if start < stop then data[start..stop] else []
  }

  predicate Overlaps(offset: nat, len: nat, start: nat, end: nat) {
    offset + len > start && offset < end
  }

  /** The stripes of object o with bytes in the range. */
  ghost function Overlapping(stripes: map<StripeId, StripeRow>, o: ObjectId, start: nat, end: nat): set<StripeId> {
    set s | s in stripes && stripes[s].owner == o && Overlaps(stripes[s].offset, stripes[s].len, start, end)
  }

  lemma OverlappingKept(a: State, b: State, hash: Vec -> Checksum, o: ObjectId, s: StripeId, start: nat, end: nat)
    requires AllKept(a, b, hash) && s in a.stripes && s in a.content && s in b.stripes && b.stripes[s].owner == o
    ensures s in Overlapping(a.stripes, o, start, end) <==> Overlaps(b.stripes[s].offset, b.stripes[s].len, start, end)
  {
    KeptRow(a, b, hash, s);
    hide AllKept, Overlaps;
  }

  /** Those of the object that clients see under a key. */
  ghost function OverlappingOf(st: State, key: Key, start: nat, end: nat): set<StripeId> {
    set s | s in st.stripes && st.stripes[s].owner in st.objects && st.objects[st.stripes[s].owner].committed
            && st.objects[st.stripes[s].owner].key == key
               && Overlaps(st.stripes[s].offset, st.stripes[s].len, start, end)
  }

  lemma OverlappingKey(st: State, key: Key, o: ObjectId, start: nat, stop: nat, end: nat)
    requires o in st.objects && st.objects[o].committed && st.objects[o].key == key && stop <= end
    ensures Overlapping(st.stripes, o, start, stop) <= OverlappingOf(st, key, start, end)
  {}

  function Part(offset: nat, piece: Vec, start: nat, end: nat): Vec {
    if start < end && Overlaps(offset, |piece|, start, end) then
      piece[(if start > offset then start else offset) - offset
            ..(if end < offset + |piece| then end else offset + |piece|) - offset]
    else []
  }

  lemma NoPart(offset: nat, piece: Vec, start: nat, end: nat)
    requires offset + |piece| <= start || offset >= end
    ensures Part(offset, piece, start, end) == []
  {}

  lemma SomePart(offset: nat, piece: Vec, start: nat, end: nat)
    requires start < end && offset + |piece| > start && offset < end
    ensures Overlaps(offset, |piece|, start, end)
    ensures Part(offset, piece, start, end) ==
            piece[(if start > offset then start else offset) - offset
                  ..(if end < offset + |piece| then end else offset + |piece|) - offset]
  {}

  lemma SliceBefore(front: Vec, last: Vec, start: nat, end: nat)
    requires start < end <= |front|
    ensures Slice(front + last, start, end) == Slice(front, start, end) && Part(|front|, last, start, end) == []
  {
    assert (front + last)[start..end] == front[start..end];
  }

  lemma SliceAfter(front: Vec, last: Vec, start: nat, end: nat)
    requires |front| <= start < end
    ensures Slice(front + last, start, end) == Part(|front|, last, start, end) && Slice(front, start, end) == []
  {
    var stop := if end < |front + last| then end else |front + last|;
    if start < stop {
      assert (front + last)[start..stop] == last[start - |front|..stop - |front|];
    }
  }

  lemma SliceAcross(front: Vec, last: Vec, start: nat, end: nat)
    requires start < |front| < end
    ensures Slice(front, start, end) == front[start..]
    ensures Slice(front + last, start, end) == front[start..] + Part(|front|, last, start, end)
  {
    var stop := if end < |front + last| then end else |front + last|;
    assert (front + last)[start..stop] == front[start..] + last[..stop - |front|];
    assert last[0..stop - |front|] == last[..stop - |front|];
  }

  /** A range of a concatenation is the range of its front and the part of its last piece. */
  lemma SliceAppend(front: Vec, last: Vec, start: nat, end: nat)
    ensures Slice(front + last, start, end) == Slice(front, start, end) + Part(|front|, last, start, end)
  {
    if start < end {
      if end <= |front| {
        SliceBefore(front, last, start, end);
      } else if |front| <= start {
        SliceAfter(front, last, start, end);
      } else {
        SliceAcross(front, last, start, end);
      }
    }
  }

  lemma SliceStop(data: Vec, start: nat, end: nat)
    ensures var stop := if end < |data| then end else |data|;
            Slice(data, start, stop) == Slice(data, start, end) && (start >= stop ==> Slice(data, start, end) == [])
  {}

  lemma FlattenNext(ids: seq<StripeId>, i: nat, content: map<StripeId, Vec>)
    requires i < |ids| && forall j :: 0 <= j < |ids| ==> ids[j] in content
    ensures Flatten(ids[..i + 1], content) == Flatten(ids[..i], content) + content[ids[i]]
  {
    assert ids[..i + 1][..i] == ids[..i];
  }

  lemma NoBytes(start: nat, end: nat)
    ensures Flatten([], map[]) == [] && Slice([], start, end) == []
    ensures forall content: map<StripeId, Vec> :: Flatten([], content) == []
  {}

  /** Stripe i of the object lies in the range and has fewer than k good shards. */
  ghost predicate LostAt(st: State, v: View, hash: Vec -> Checksum, o: ObjectId, i: nat, start: nat, end: nat) {
    o in st.layout && i < |st.layout[o]| && st.layout[o][i] in st.stripes
    && var row := st.stripes[st.layout[o][i]];
    Overlaps(row.offset, row.len, start, end) && |v.Good(hash, st.layout[o][i], row.k + row.m)| < row.k
  }

  lemma LostHere(st: State, v: View, hash: Vec -> Checksum, o: ObjectId, i: nat, start: nat, end: nat)
    requires o in st.layout && i < |st.layout[o]| && st.layout[o][i] in st.stripes
    requires Overlaps(st.stripes[st.layout[o][i]].offset, st.stripes[st.layout[o][i]].len, start, end)
    requires |v.Good(hash, st.layout[o][i], st.stripes[st.layout[o][i]].k + st.stripes[st.layout[o][i]].m)|
             < st.stripes[st.layout[o][i]].k
    ensures LostAt(st, v, hash, o, i, start, end)
  {}

  /** Some stripe of this key's object that lies in the range has fewer than k good shards. */
  ghost predicate Loses(st: State, v: View, hash: Vec -> Checksum, key: Key, start: nat, end: nat) {
    exists o, i: nat :: o in st.objects && st.objects[o].committed && st.objects[o].key == key
                        && LostAt(st, v, hash, o, i, start, end)
  }

  lemma LosesFrom(st: State, v: View, hash: Vec -> Checksum, key: Key, o: ObjectId, i: nat, start: nat, stop: nat,
                  end: nat)
    requires o in st.objects && st.objects[o].committed && st.objects[o].key == key
    requires LostAt(st, v, hash, o, i, start, stop) && stop <= end
    ensures Loses(st, v, hash, key, start, end)
  {
    assert LostAt(st, v, hash, o, i, start, end);
  }

  /** A stripe that is lost now was lost before the reading began. */
  lemma LostLater(a: State, b: State, v: View, w: View, hash: Vec -> Checksum, o: ObjectId, i: nat, start: nat,
                  end: nat)
    requires AllKept(a, b, hash) && SameReads(v, w, hash)
    requires o in a.layout && o in b.layout && a.layout[o] == b.layout[o] && i < |a.layout[o]|
    requires a.layout[o][i] in a.stripes && a.layout[o][i] in a.content
    ensures LostAt(b, w, hash, o, i, start, end) ==> LostAt(a, v, hash, o, i, start, end)
  {
    hide View.Read, Overlaps, AllKept, SameReads;
    var s := a.layout[o][i];
    KeptRow(a, b, hash, s);
    GoodSame(v, w, hash, s, a.stripes[s].k + a.stripes[s].m);
  }

  lemma KeptRow(a: State, b: State, hash: Vec -> Checksum, s: StripeId)
    requires AllKept(a, b, hash) && s in a.stripes && s in a.content
    ensures s in b.stripes && SameRow(a.stripes[s], b.stripes[s])
  {
    hide StripeOk;
    assert StripeKept(a, b, hash, s);
  }

  lemma GoodSame(v: View, w: View, hash: Vec -> Checksum, s: StripeId, n: nat)
    requires SameReads(v, w, hash)
    ensures v.Good(hash, s, n) == w.Good(hash, s, n)
  {
    hide View.Read;
  }
}
