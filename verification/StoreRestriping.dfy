/** Restriping: staged replacements with the same bytes. */
module StoreRestriping {
  import opened LinearAlgebra
  import opened Codec
  import opened StoreTypes
  import opened StoreState
  import opened StoreSteps
  import opened StoreViews
  import opened StoreReading
  import opened StoreWriting
  import opened StorePutting
  import opened Sequences

  /** Staged replacements for the first stripes of an object, well placed; nothing else has changed. */
  ghost predicate Staged(start: State, view: View, now: State, live: View, hash: Vec -> Checksum, o: ObjectId,
                         news: seq<StripeId>, k: nat, m: nat, need: nat)
  {
    Untouched(start, view, now, live, hash, o) && o in start.layout && |news| <= |start.layout[o]|
    && AllPlaced(now, live, hash, news, k, m, need)
    && forall j :: 0 <= j < |news| ==> Replaces(now, hash, o, start.layout[o], news, j) && news[j] !in start.used
  }

  ghost predicate Untouched(start: State, view: View, now: State, live: View, hash: Vec -> Checksum, o: ObjectId) {
    SameVisible(start, now) && Spares(view, live, hash, start.used) && NewStripes(start, now, o)
    && AllKept(start, now, hash) && now.layout == start.layout && now.objects == start.objects
    && DisksStay(view.shards, live.shards, start.used)
  }

  lemma UntouchedNext(start: State, view: View, a: State, v: View, b: State, w: View, hash: Vec -> Checksum,
                      o: ObjectId)
    requires Untouched(start, view, a, v, hash, o)
    requires SameVisible(a, b) && Spares(v, w, hash, a.used) && NewStripes(a, b, o) && AllKept(a, b, hash)
    requires b.layout == a.layout && b.objects == a.objects && DisksStay(v.shards, w.shards, a.used)
    ensures Untouched(start, view, b, w, hash, o)
  {
    UntouchedParts(start, view, a, v, hash, o);
    assert DisksStay(view.shards, w.shards, start.used);
    SameVisibleTrans(start, a, b);
    AllKeptTrans(start, a, b, hash);
    SparesTrans(view, v, w, hash, start.used, a.used);
    NewStripesTrans(start, a, b, o);
    hide SameVisible, AllKept, Spares, NewStripes;
  }

  lemma UntouchedParts(start: State, view: View, now: State, live: View, hash: Vec -> Checksum, o: ObjectId)
    requires Untouched(start, view, now, live, hash, o)
    ensures SameVisible(start, now) && Spares(view, live, hash, start.used) && AllKept(start, now, hash)
    ensures NewStripes(start, now, o) && now.layout == start.layout && now.objects == start.objects
    ensures start.used <= now.used && DisksStay(view.shards, live.shards, start.used)
  {
    hide SameVisible, Spares, AllKept;
  }

  lemma UntouchedSame(st: State, v: View, hash: Vec -> Checksum, o: ObjectId)
    requires Consistent(st, hash)
    ensures Untouched(st, v, st, v, hash, o)
  {
    NewStripesSame(st, hash, o);
    hide View.Read, Holds, StripeOk, NewStripes, Consistent;
  }

  lemma ReplacesKept(a: State, b: State, hash: Vec -> Checksum, o: ObjectId, ids: seq<StripeId>, news: seq<StripeId>,
                     j: nat)
    requires j < |ids| && j < |news| && Replaces(a, hash, o, ids, news, j) && AllKept(a, b, hash)
    ensures Replaces(b, hash, o, ids, news, j)
    ensures forall k, m :: Profiled(a, news[j], k, m) ==> Profiled(b, news[j], k, m)
  {
    hide StripeOk, RowsCarried;
    assert StripeKept(a, b, hash, news[j]);
    assert StripeKept(a, b, hash, ids[j]);
  }

  lemma StagedKept(start: State, view: View, a: State, v: View, b: State, w: View, hash: Vec -> Checksum, o: ObjectId,
                   news: seq<StripeId>, k: nat, m: nat, need: nat)
    requires Staged(start, view, a, v, hash, o, news, k, m, need) && Untouched(start, view, b, w, hash, o)
    requires AllKept(a, b, hash) && a.used <= b.used && Spares(v, w, hash, a.used)
    requires DisksStay(v.shards, w.shards, a.used)
    ensures Staged(start, view, b, w, hash, o, news, k, m, need)
  {
    hide Untouched, Replaces, AllKept, AllPlaced, Spares, DisksStay, Profiled;
    forall j | 0 <= j < |news|
      ensures Replaces(b, hash, o, start.layout[o], news, j)
      ensures Profiled(a, news[j], k, m) ==> Profiled(b, news[j], k, m)
    {
      ReplacesKept(a, b, hash, o, start.layout[o], news, j);
    }
    AllPlacedUsed(a, v, hash, news, k, m, need);
    AllPlacedStays(a, b, v, w, hash, news, k, m, need, a.used);
  }

  lemma StagedMore(start: State, view: View, a: State, v: View, b: State, w: View, hash: Vec -> Checksum, o: ObjectId,
                   news: seq<StripeId>, s: StripeId, k: nat, m: nat, need: nat, offset: nat, data: Vec)
    requires Staged(start, view, a, v, hash, o, news, k, m, need) && |news| < |start.layout[o]|
    requires Untouched(start, view, b, w, hash, o) && AllKept(a, b, hash) && a.used <= b.used
    requires Spares(v, w, hash, a.used) && DisksStay(v.shards, w.shards, a.used)
    requires Wrote(a, b, hash, s, o, |news|, offset, data, k, m, true)
    requires WellPlaced(w, hash, s, k + m, need) && w.shards == b.shards
    requires var t := start.layout[o][|news|];
             t in a.stripes && t in a.content && a.stripes[t].offset == offset && a.content[t] == data
    ensures Staged(start, view, b, w, hash, o, news + [s], k, m, need)
  {
    hide *;
    StagedKept(start, view, a, v, b, w, hash, o, news, k, m, need);
    StagedReplaces(start, view, a, v, b, hash, o, news, s, k, m, need, offset, data);
    WroteParts(a, b, hash, s, o, |news|, offset, data, k, m, true, w);
    WroteProfile(a, b, hash, s, o, |news|, offset, data, k, m, true);
    PlacedFrom(b, w, hash, s, k, m, need);
    StagedFrom(start, view, b, w, hash, o, news, s, k, m, need);
  }

  lemma StagedFrom(start: State, view: View, b: State, w: View, hash: Vec -> Checksum, o: ObjectId, news: seq<StripeId>,
                   s: StripeId, k: nat, m: nat, need: nat)
    requires Staged(start, view, b, w, hash, o, news, k, m, need) && |news| < |start.layout[o]|
    requires s !in start.used && Replaces(b, hash, o, start.layout[o], news + [s], |news|)
    requires PlacedStripe(b, w, hash, s, k, m, need)
    ensures Staged(start, view, b, w, hash, o, news + [s], k, m, need)
  {
    hide Untouched, AllPlaced, StripeOk, PlacedStripe;
    AllPlacedMore(b, w, hash, news, s, k, m, need);
    forall j: nat | j < |news|
      ensures Replaces(b, hash, o, start.layout[o], news + [s], j)
    {
      assert (news + [s])[j] == news[j];
      assert Replaces(b, hash, o, start.layout[o], news, j);
    }
    hide Replaces;
  }

  lemma StagedReplaces(start: State, view: View, a: State, v: View, b: State, hash: Vec -> Checksum, o: ObjectId,
                       news: seq<StripeId>, s: StripeId, k: nat, m: nat, need: nat, offset: nat, data: Vec)
    requires Staged(start, view, a, v, hash, o, news, k, m, need) && |news| < |start.layout[o]| && AllKept(a, b, hash)
    requires Wrote(a, b, hash, s, o, |news|, offset, data, k, m, true)
    requires var t := start.layout[o][|news|];
             t in a.stripes && t in a.content && a.stripes[t].offset == offset && a.content[t] == data
    ensures s !in start.used && Replaces(b, hash, o, start.layout[o], news + [s], |news|)
  {
    hide StripeOk, Replaces, AllPlaced;
    UntouchedParts(start, view, a, v, hash, o);
    hide Untouched, SameVisible, Spares, NewStripes, RowsCarried;
    assert StripeKept(a, b, hash, start.layout[o][|news|]);
    ReplacesFrom(b, hash, o, start.layout[o], news + [s], |news|);
  }

  lemma ReplacesFrom(st: State, hash: Vec -> Checksum, o: ObjectId, ids: seq<StripeId>, news: seq<StripeId>, i: nat)
    requires i < |ids| && i < |news| && ids[i] in st.stripes && ids[i] in st.content
    requires news[i] in st.stripes && news[i] in st.content && st.content[news[i]] == st.content[ids[i]]
    requires st.stripes[news[i]].state.Pending? && st.stripes[news[i]].owner == o && st.stripes[news[i]].seqno == i
    requires st.stripes[news[i]].offset == st.stripes[ids[i]].offset
    requires StripeOk(st.stripes[news[i]], st.content[news[i]], news[i], st.shards, hash)
    ensures Replaces(st, hash, o, ids, news, i)
  {
    hide StripeOk;
  }

  lemma ListedOld(start: State, now: State, hash: Vec -> Checksum, o: ObjectId, i: nat)
    requires Consistent(start, hash) && o in start.objects && o in start.layout && i < |start.layout[o]|
    requires AllKept(start, now, hash)
    ensures var s := start.layout[o][i];
            s in start.used && s in start.stripes && s in now.stripes && SameRow(start.stripes[s], now.stripes[s])
  {
    ListedByOwner(start, hash, o, start.layout[o][i]);
    hide ObjectOk, KeysUnique, ShardsOk, RowsCarried;
    KeptRow(start, now, hash, start.layout[o][i]);
  }

  lemma ContentKept(a: State, b: State, hash: Vec -> Checksum)
    requires AllKept(a, b, hash)
    ensures forall s :: s in a.content ==> s in b.content && b.content[s] == a.content[s]
  {
    hide StripeKept;
  }

  lemma WithoutThem(stripes: map<StripeId, StripeRow>, news: seq<StripeId>)
    ensures forall j :: 0 <= j < |news| ==> news[j] !in StripesWithout(stripes, Elements(news))
  {}

  lemma FewerSpared(a: View, b: View, hash: Vec -> Checksum, keep: set<StripeId>, fewer: set<StripeId>)
    requires Spares(a, b, hash, keep) && fewer <= keep
    ensures Spares(a, b, hash, fewer)
  {
    hide View.Read;
  }

  ghost function ListedStripes(st: State, o: ObjectId): set<StripeId> {
    if o in st.layout then Elements(st.layout[o]) else {}
  }

  lemma ListedParts(st: State, o: ObjectId)
    requires o in st.layout
    ensures ListedStripes(st, o) == Elements(st.layout[o])
  {}

  /** Each of these stripes has shards of the least size that holds it. */
  predicate AllSized(stripes: map<StripeId, StripeRow>, ids: seq<StripeId>, cap: nat) {
    forall i :: 0 <= i < |ids| ==> ids[i] in stripes && Sized(stripes[ids[i]], stripes[ids[i]].len, cap)
  }

  lemma SizedKept(start: State, view: View, a: State, v: View, b: State, hash: Vec -> Checksum, o: ObjectId,
                  news: seq<StripeId>, k: nat, m: nat, need: nat, cap: nat)
    requires Staged(start, view, a, v, hash, o, news, k, m, need)
    requires AllSized(a.stripes, news, cap) && AllKept(a, b, hash)
    ensures AllSized(b.stripes, news, cap)
  {
    hide StripeOk, AllPlaced, Untouched;
    forall j | 0 <= j < |news|
      ensures news[j] in b.stripes && Sized(b.stripes[news[j]], b.stripes[news[j]].len, cap)
    {
      assert Replaces(a, hash, o, start.layout[o], news, j);
      KeptRow(a, b, hash, news[j]);
    }
  }

  lemma NothingSized(stripes: map<StripeId, StripeRow>, cap: nat)
    ensures AllSized(stripes, [], cap)
  {}

  lemma SizedMore(stripes: map<StripeId, StripeRow>, news: seq<StripeId>, s: StripeId, length: nat, cap: nat)
    requires AllSized(stripes, news, cap) && s in stripes && Sized(stripes[s], length, cap)
    ensures AllSized(stripes, news + [s], cap)
  {
    SizedLength(stripes[s], length, cap);
    hide Sized;
  }

  lemma SizedPromoted(stripes: map<StripeId, StripeRow>, news: seq<StripeId>, gone: set<StripeId>, cap: nat)
    requires AllSized(stripes, news, cap) && gone !! Elements(news)
    ensures AllSized(Promoted(StripesWithout(stripes, gone), news), news, cap)
  {
    hide ShardSizeFor;
  }

  /** Stripe for stripe the two lists hold the same bytes. */
  ghost predicate SameBytes(content: map<StripeId, Vec>, ids: seq<StripeId>, news: seq<StripeId>) {
    |news| == |ids|
    && forall i :: 0 <= i < |news| ==> ids[i] in content && news[i] in content && content[news[i]] == content[ids[i]]
  }

  lemma ReplacesSame(st: State, hash: Vec -> Checksum, o: ObjectId, ids: seq<StripeId>, news: seq<StripeId>)
    requires |news| == |ids| && forall j :: 0 <= j < |news| ==> Replaces(st, hash, o, ids, news, j)
    ensures SameBytes(st.content, ids, news)
  {
    hide StripeOk;
    forall i | 0 <= i < |news|
      ensures ids[i] in st.content && news[i] in st.content && st.content[news[i]] == st.content[ids[i]]
    {
      assert Replaces(st, hash, o, ids, news, i);
    }
  }

  /** Object o lists other stripes than before, of the same bytes, all of them well placed and no larger than they
      need be; the other lists are the same. */
  ghost predicate Restriped(before: map<ObjectId, seq<StripeId>>, st: State, v: View, hash: Vec -> Checksum,
                            o: ObjectId, k: nat, m: nat, need: nat, cap: nat)
  {
    o in before && o in st.layout && st.layout == before[o := st.layout[o]]
    && SameBytes(st.content, before[o], st.layout[o])
    && AllPlaced(st, v, hash, st.layout[o], k, m, need) && AllSized(st.stripes, st.layout[o], cap)
  }

  lemma RestripedFrom(before: map<ObjectId, seq<StripeId>>, st: State, v: View, hash: Vec -> Checksum, o: ObjectId,
                      k: nat, m: nat, need: nat, cap: nat, news: seq<StripeId>)
    requires o in before && st.layout == before[o := news] && AllPlaced(st, v, hash, news, k, m, need)
    requires AllSized(st.stripes, news, cap) && SameBytes(st.content, before[o], news)
    ensures Restriped(before, st, v, hash, o, k, m, need, cap)
  {
    hide AllPlaced, AllSized, SameBytes;
  }

  /** Some stripe of the object holds more than k shards of the largest size. */
  ghost predicate Oversized(st: State, o: ObjectId, k: nat, shard: nat) {
    o in st.layout && exists i :: 0 <= i < |st.layout[o]| && st.layout[o][i] in st.content
                                  && |st.content[st.layout[o][i]]| > k * shard
  }

  lemma OversizedFrom(st: State, o: ObjectId, ids: seq<StripeId>, k: nat, shard: nat)
    requires o in st.layout && ids == st.layout[o]
    ensures (exists i :: 0 <= i < |ids| && ids[i] in st.content && |st.content[ids[i]]| > k * shard) ==>
              Oversized(st, o, k, shard)
  {}

  lemma PendingElements(stripes: map<StripeId, StripeRow>, news: seq<StripeId>)
    requires forall j :: 0 <= j < |news| ==> news[j] in stripes && stripes[news[j]].state.Pending?
    ensures forall s :: s in Elements(news) && s in stripes ==> stripes[s].state.Pending?
  {}

  lemma FreshElements(news: seq<StripeId>, used: set<StripeId>)
    requires forall j :: 0 <= j < |news| ==> news[j] !in used
    ensures used !! Elements(news)
  {}

  lemma PathsStay(a: map<ShardKey, ShardRow>, b: map<ShardKey, ShardRow>, disks: map<DiskId, Disk>,
                  keep: set<StripeId>, ids: set<StripeId>)
    requires DisksStay(a, b, keep) && ids <= keep
    ensures PathsOf(a, disks, ids) <= PathsOf(b, disks, ids)
  {}

  lemma NewStripesRead(a: State, b: State, hash: Vec -> Checksum, s: StripeId, o: ObjectId)
    requires Consistent(a, hash) && b.used == a.used && s in a.stripes && !a.stripes[s].state.Pending?
    requires b.stripes == a.stripes || b.stripes == a.stripes[s := a.stripes[s].(state := Unrecoverable)]
    ensures NewStripes(a, b, o)
  {
    hide ObjectOk, KeysUnique, ShardsOk;
  }

  lemma MarkedDisks(a: map<ShardKey, ShardRow>, b: map<ShardKey, ShardRow>, keep: set<StripeId>)
    requires Marked(a, b)
    ensures DisksStay(a, b, keep)
  {}

  lemma WroteStaged(a: State, b: State, hash: Vec -> Checksum, s: StripeId, o: ObjectId, seqno: nat, offset: nat,
                    data: Vec, k: nat, m: nat)
    requires Wrote(a, b, hash, s, o, seqno, offset, data, k, m, true)
    ensures b.layout == a.layout && b.objects == a.objects
  {
    hide StripeOk;
  }

  lemma StagedStart(st: State, v: View, hash: Vec -> Checksum, o: ObjectId, k: nat, m: nat, need: nat)
    requires Consistent(st, hash) && o in st.layout
    ensures Staged(st, v, st, v, hash, o, [], k, m, need)
  {
    UntouchedSame(st, v, hash, o);
    hide Untouched, Consistent;
  }

  lemma StagedParts(start: State, view: View, now: State, live: View, hash: Vec -> Checksum, o: ObjectId,
                    news: seq<StripeId>, k: nat, m: nat, need: nat)
    requires Staged(start, view, now, live, hash, o, news, k, m, need)
    ensures Untouched(start, view, now, live, hash, o) && o in start.layout && |news| <= |start.layout[o]|
    ensures AllPlaced(now, live, hash, news, k, m, need)
    ensures forall j :: 0 <= j < |news| ==>
              news[j] in now.stripes && news[j] !in start.used && now.stripes[news[j]].state.Pending?
    ensures o in now.layout && now.layout[o] == start.layout[o]
    ensures forall j :: 0 <= j < |news| ==> Replaces(now, hash, o, now.layout[o], news, j)
  {
    hide StripeOk, SameVisible, Spares, AllKept, NewStripes, AllPlaced;
  }

  lemma SwapParts(st: State, o: ObjectId, news: seq<StripeId>, gone: set<StripeId>)
    requires o in st.layout && gone == Elements(st.layout[o])
    ensures SwapStripes(st, o, news) == st.(stripes := Promoted(StripesWithout(st.stripes, gone), news),
                                            shards := ShardsWithout(st.shards, gone), layout := st.layout[o := news])
  {}

  /** Every stripe of the list has the profile. */
  predicate AllProfiled(stripes: map<StripeId, StripeRow>, ids: seq<StripeId>, k: nat, m: nat) {
    forall i :: 0 <= i < |ids| ==> ids[i] in stripes && stripes[ids[i]].k == k && stripes[ids[i]].m == m
  }

  /** The object, if there is one, has the profile already. */
  ghost predicate HasProfile(st: State, o: ObjectId, k: nat, m: nat) {
    o in st.objects ==> o in st.layout && AllProfiled(st.stripes, st.layout[o], k, m)
  }

  lemma HasProfileFrom(st: State, o: ObjectId, k: nat, m: nat)
    requires o in st.objects ==> o in st.layout && AllProfiled(st.stripes, st.layout[o], k, m)
    ensures HasProfile(st, o, k, m)
  {}

  lemma SwapProfiled(start: State, hash: Vec -> Checksum, now: State, live: View, o: ObjectId, news: seq<StripeId>,
                     k: nat, m: nat, need: nat, gone: set<StripeId>)
    requires Consistent(start, hash) && o in start.objects && o in start.layout && gone == Elements(start.layout[o])
    requires AllPlaced(now, live, hash, news, k, m, need) && forall j :: 0 <= j < |news| ==> news[j] !in start.used
    ensures AllProfiled(Promoted(StripesWithout(now.stripes, gone), news), news, k, m)
    ensures gone <= start.used && gone !! Elements(news)
  {
    forall s | s in gone
      ensures s in start.used
    {
      ListedByOwner(start, hash, o, s);
    }
    forall j | 0 <= j < |news|
      ensures news[j] in now.stripes && now.stripes[news[j]].k == k && now.stripes[news[j]].m == m
    {
      assert PlacedStripe(now, live, hash, news[j], k, m, need);
    }
    hide Consistent, AllPlaced;
  }

  /** Swapping the replacements in and removing the old files leaves the new stripes as well placed as they were. */
  lemma SwapPlaced(now: State, live: View, b: State, w: View, hash: Vec -> Checksum, o: ObjectId, news: seq<StripeId>,
                   k: nat, m: nat, need: nat, gone: set<StripeId>)
    requires AllPlaced(now, live, hash, news, k, m, need) && gone !! Elements(news)
    requires b.stripes == Promoted(StripesWithout(now.stripes, gone), news) && b.used == now.used
    requires w.disks == live.disks && FilesOutside(live.files, w.files, gone)
    requires w.shards == ShardsWithout(live.shards, gone)
    ensures AllPlaced(b, w, hash, news, k, m, need)
  {
    var keep := Elements(news);
    assert DisksStay(live.shards, w.shards, keep);
    forall j | 0 <= j < |news|
      ensures news[j] in keep && (Profiled(now, news[j], k, m) ==> Profiled(b, news[j], k, m))
    {}
    hide *;
    OwnedNewSpares(live, w, hash, gone, keep);
    AllPlacedStays(now, b, live, w, hash, news, k, m, need, keep);
  }

  lemma SwapStripeRows(start: State, now: State, b: State, o: ObjectId, news: seq<StripeId>, gone: set<StripeId>)
    requires NewStripes(start, now, o) && b.stripes == Promoted(StripesWithout(now.stripes, gone), news)
    requires b.used == now.used && forall j :: 0 <= j < |news| ==> news[j] !in start.used
    ensures NewStripes(start, b, o)
    ensures forall s :: s in gone && s in b.stripes ==> b.stripes[s].owner == o
  {}
}
