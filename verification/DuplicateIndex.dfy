/** The index of near-duplicate images and the groups it keeps in the table of files. */
module DuplicateIndex {
  import opened Wrappers
  import opened Hamming
  import opened Mih
  import opened BKTree
  import opened Grouping
  import opened Extremes

  datatype FileRow = FileRow(phash: Option<nat>, trashed: bool, group: Option<Id>, reviewed: bool)

  /** The index in use, one of two kinds. */
  datatype Index = Substrings(mih: MultiIndexHash) | Distances(tree: BKTree)

  function GroupsOf(rows: map<Id, FileRow>): Groups {
    map i | i in rows :: rows[i].group
  }

  /** The table after the two updates of a transaction. */
  function Regrouped(rows: map<Id, FileRow>, root: Id, labels: set<Id>, ids: set<Id>): map<Id, FileRow> {
    map i | i in rows ::
      if i in ids then rows[i].(group := Some(root), reviewed := false)
      else if rows[i].group.Some? && rows[i].group.value in labels then rows[i].(group := Some(root))
      else rows[i]
  }

  lemma RegroupedLabels(rows: map<Id, FileRow>, root: Id, near: set<Id>, x: Id)
    ensures GroupsOf(Regrouped(rows, root, LabelsOf(GroupsOf(rows), near), {x} + near))
         == Relabelled(GroupsOf(rows), root, near, x)
  {}

  // ---------------------------------------------------------------- the two indexes agree

  /** The tree has each code once. */
  ghost predicate EntriesAre(entries: multiset<Entry>, codes: Codes) {
    forall e: Entry :: entries[e] == if e.item in codes && codes[e.item] == e.code then 1 else 0
  }

  function Items(hits: seq<Hit>): set<Id> {
    set h | h in hits :: h.item
  }

  lemma ScanIsNear(codes: Codes, q: nat, radius: nat, out: seq<Hit>)
    requires Scanned(codes, q, radius, out)
    ensures Items(out) == Near(codes, q, radius)
  {
    hide Dist;
    forall h | h in out ensures h.item in Near(codes, q, radius) {
      assert Hit(h.item, h.distance) in out;
    }
    forall i | i in Near(codes, q, radius) ensures i in Items(out) {
      assert Hit(i, Dist(codes[i], q)) in out;
    }
  }

  /** Over the same images, the tree's answer is the other index's, as a scan would give it. */
  lemma TreeScans(entries: multiset<Entry>, codes: Codes, q: nat, radius: nat, out: seq<Hit>, found: seq<Entry>)
    requires EntriesAre(entries, codes) && ScannedAll(entries, q, radius, out, found)
    ensures Scanned(codes, q, radius, out)
  {
    hide Dist;
    forall e | e in found ensures e.item in codes && codes[e.item] == e.code && Dist(e.code, q) <= radius
        && multiset(found)[e] == 1 {
      assert multiset(found)[e] > 0;
    }
    forall item, d: nat ensures Hit(item, d) in out <==> item in codes && d == Dist(codes[item], q) && d <= radius {
      if Hit(item, d) in out {
        var i :| 0 <= i < |out| && out[i] == Hit(item, d);
        assert found[i] in found;
      }
      if item in codes && d == Dist(codes[item], q) && d <= radius {
        assert multiset(found)[Entry(codes[item], item)] == 1;
        assert Entry(codes[item], item) in found;
        var i :| 0 <= i < |found| && found[i] == Entry(codes[item], item);
        assert out[i] == Hit(item, d);
      }
    }
    forall i, j | 0 <= i < j < |out| ensures out[i].item != out[j].item {
      assert found[i] in found && found[j] in found;
      if found[i] == found[j] {
        CountedTwice(found, i, j);
      }
    }
  }

  lemma CountedTwice(l: seq<Entry>, i: nat, j: nat)
    requires i < j < |l| && l[i] == l[j]
    ensures multiset(l)[l[i]] >= 2
  {
    assert l == l[..j] + [l[j]] + l[j + 1..];
    assert l[i] in l[..j];
    assert multiset(l[..j])[l[i]] >= 1;
  }

  // ---------------------------------------------------------------- either index

  /** The index holds exactly these images. */
  ghost predicate InSubstrings(m: MultiIndexHash, codes: Codes)
    reads m
  {
    m.Valid() && Exact(m.tables, m.codes) && m.codes == codes
  }

  ghost predicate InDistances(t: BKTree, codes: Codes)
    reads t, t.links.Keys
  {
    t.Valid() && EntriesAre(t.entries, codes)
  }

  method EnterSubstrings(m: MultiIndexHash, id: Id, phash: nat, ghost codes: Codes)
    requires InSubstrings(m, codes) && IsCode(phash) && id !in codes
    modifies m
    ensures InSubstrings(m, codes[id := phash])
  {
    hide Exact, Clean, IsCode, Covered;
    m.Add(phash, id);
  }

  method EnterDistances(t: BKTree, id: Id, phash: nat, ghost codes: Codes)
    requires InDistances(t, codes) && id !in codes
    modifies t, t.links.Keys
    ensures InDistances(t, codes[id := phash]) && fresh(t.links.Keys - old(t.links.Keys))
  {
    hide EntriesAre, Plus;
    EntriesMore(t.entries, codes, id, phash);
    t.Add(phash, id);
  }

  method LeaveSubstrings(m: MultiIndexHash, id: Id, phash: nat, ghost codes: Codes)
    requires InSubstrings(m, codes) && (id in codes ==> codes[id] == phash)
    modifies m
    ensures InSubstrings(m, codes - {id})
  {
    hide Exact, Clean, IsCode, Covered;
    m.Remove(phash, id);
  }

  method LeaveDistances(t: BKTree, id: Id, phash: nat, ghost codes: Codes)
    requires InDistances(t, codes) && (id in codes ==> codes[id] == phash)
    modifies t, t.links.Keys
    ensures InDistances(t, codes - {id}) && t.links == old(t.links)
  {
    hide EntriesAre, Minus;
    EntriesLess(t.entries, codes, id, phash);
    var _ := t.Remove(phash, id);
  }

  lemma EntriesMore(entries: multiset<Entry>, codes: Codes, id: Id, c: nat)
    requires EntriesAre(entries, codes) && id !in codes
    ensures EntriesAre(Plus(entries, Entry(c, id)), codes[id := c])
  {}

  lemma EntriesLess(entries: multiset<Entry>, codes: Codes, id: Id, c: nat)
    requires EntriesAre(entries, codes) && (id in codes ==> codes[id] == c)
    ensures EntriesAre(if Entry(c, id) in entries then Minus(entries, Entry(c, id)) else entries, codes - {id})
  {
    assert Entry(c, id) in entries <==> id in codes;
  }

  // ---------------------------------------------------------------- the index of images

  class DuplicateIndex {
    const radius: nat
    const byDistance: bool
    var index: Index
    var rows: map<Id, FileRow>
    /** The images indexed, with their codes. */
    ghost var codes: Codes

    /** The objects of the index. */
    ghost var repr: set<object>

    ghost predicate Valid()
      reads this, repr
    {
      && this !in repr && codes.Keys <= rows.Keys && (forall i :: i in codes ==> IsCode(codes[i]))
      && match index
         case Substrings(m) => m in repr && InSubstrings(m, codes)
         case Distances(t) => t in repr && t.links.Keys <= repr && InDistances(t, codes)
    }

    method MakeIndex() returns (made: Index)
      ensures made.Substrings? ==> fresh(made.mih) && InSubstrings(made.mih, map[])
      ensures made.Distances? ==> fresh(made.tree) && InDistances(made.tree, map[]) && made.tree.links == map[]
    {
      if byDistance {
        var t := new BKTree();
        made := Distances(t);
      } else {
        var m := new MultiIndexHash();
        made := Substrings(m);
      }
    }

    constructor (radius: nat, byDistance: bool, rows: map<Id, FileRow>)
      ensures Valid() && fresh(repr) && codes == map[] && this.rows == rows && this.radius == radius
    {
      this.radius, this.byDistance, this.rows, codes := radius, byDistance, rows, map[];
      if byDistance {
        var t := new BKTree();
        index, repr := Distances(t), {t};
      } else {
        var m := new MultiIndexHash();
        index, repr := Substrings(m), {m};
      }
    }

    /** The indexed images near a code, whichever index is in use. */
    method Query(q: nat) returns (hits: seq<Hit>)
      requires Valid() && IsCode(q)
      modifies repr
      ensures Valid() && codes == old(codes) && rows == old(rows) && index == old(index)
      ensures Scanned(codes, q, radius, hits)
    {
      hide Dist, Scanned, ScannedAll, EntriesAre, Exact, Clean, Covered, IsCode;
      match index {
        case Substrings(m) =>
          ExactIs(m.tables, m.codes);
          var r := m.Search(q, radius);
          hits := r.value;
        case Distances(t) =>
          ghost var found;
          hits, found := t.Search(q, radius);
          TreeScans(t.entries, codes, q, radius, hits, found);
      }
    }

    method Enter(id: Id, phash: nat)
      requires Valid() && IsCode(phash) && id !in codes && id in rows
      modifies this`codes, this`repr, repr
      ensures Valid() && this !in repr && codes == old(codes)[id := phash] && index == old(index)
      ensures fresh(repr - old(repr))
    {
      hide InSubstrings, InDistances, IsCode;
      codes := codes[id := phash];
      match index {
        case Substrings(m) => EnterSubstrings(m, id, phash, old(codes));
        case Distances(t) =>
          EnterDistances(t, id, phash, old(codes));
          repr := repr + t.links.Keys;
      }
    }

    /** Starts over with the images of the table. */
    method Load() returns (n: nat)
      requires forall i :: i in rows && rows[i].phash.Some? ==> IsCode(rows[i].phash.value)
      modifies this`index, this`codes, this`repr
      ensures Valid() && fresh(repr) && codes == Live(rows) && n == |Live(rows)|
    {
      hide InSubstrings, InDistances, IsCode, Live;
      StartOver();
      n := EnterAll();
    }

    method StartOver()
      modifies this`index, this`codes, this`repr
      ensures Valid() && this !in repr && fresh(repr) && codes == map[]
    {
      hide InSubstrings, InDistances, IsCode;
      codes := map[];
      index := MakeIndex();
      repr := match index case Substrings(m) => {m} case Distances(t) => {t};
    }

    method EnterAll() returns (n: nat)
      requires Valid() && this !in repr && codes == map[] && forall i :: i in rows && rows[i].phash.Some? ==>
                 IsCode(rows[i].phash.value)
      modifies this`codes, this`repr, repr
      ensures Valid() && fresh(repr - old(repr)) && codes == Live(rows) && n == |Live(rows)|
    {
      hide *;
      LiveNone(rows);
      var left := rows.Keys;
      n := 0;
      while left != {}
        invariant left <= rows.Keys && Valid() && this !in repr && fresh(repr - old(repr))
        invariant codes == Loaded(rows, left) && n == |Loaded(rows, left)|
        decreases |left|
      {
        assert (forall i :: i !in left) ==> left == {};
        var i :| i in left;
        LiveNext(rows, left, i);
        if rows[i].phash.Some? && !rows[i].trashed {
          Enter(i, rows[i].phash.value);
          n := n + 1;
        }
        left := left - {i};
      }
    }

    /** The group of a new or restored image: that of all images near it and of all images already
        grouped with one of those. A restored image near no other keeps the label it had. */
    method Add(id: Id, phash: nat) returns (group: Option<Id>)
      requires Valid() && IsCode(phash) && id !in codes && id in rows
      modifies this, repr
      ensures Valid() && fresh(repr - old(repr)) && codes == old(codes)[id := phash]
      ensures rows.Keys == old(rows).Keys && id in rows && (group.Some? ==> group == rows[id].group)
      ensures group.None? <==> Near(old(codes), phash, radius) == {}
      ensures group.None? ==> rows == old(rows)
      ensures group.Some? ==>
                var near := Near(old(codes), phash, radius);
                IsLeast(group.value, Merged(old(codes), GroupsOf(old(rows)), radius, id, phash))
                && rows == Regrouped(old(rows), group.value, LabelsOf(GroupsOf(old(rows)), near), {id} + near)
      ensures Shared(old(codes), GroupsOf(old(rows)), radius) ==> Shared(codes, GroupsOf(rows), radius)
      ensures Grouped(old(codes), GroupsOf(old(rows)), radius) ==>
                (Grouped(codes, GroupsOf(rows), radius) <==> group.Some? || old(rows)[id].group.None?)
    {
      hide InSubstrings, InDistances, IsCode, Shared, Labelled, Near, LabelsOf, Merged, Relabelled, Scanned;
      var hits := Query(phash);
      ScanIsNear(codes, phash, radius, hits);
      var near := Items(hits);
      Enter(id, phash);
      if near == {} {
        Isolated(old(codes), GroupsOf(rows), radius, id, phash);
        return None;
      }
      var labels := LabelsOf(GroupsOf(rows), near);
      var root := Least({id} + near + labels);
      MergedParts(old(codes), GroupsOf(rows), radius, id, phash);
      Relabels(old(codes), GroupsOf(rows), radius, id, phash, root);
      RegroupedLabels(rows, root, near, id);
      rows := Regrouped(rows, root, labels, {id} + near);
      group := Some(root);
    }

    /** An image leaves the index; groups stay as they are, and near images still share theirs. */
    method Remove(id: Id, phash: Option<nat>)
      requires Valid() && (id in codes ==> phash == Some(codes[id]))
      modifies this`codes, repr
      ensures Valid() && codes == (if phash.Some? then old(codes) - {id} else old(codes)) && repr == old(repr)
      ensures Shared(old(codes), GroupsOf(rows), radius) ==> Shared(codes, GroupsOf(rows), radius)
      ensures id in old(codes) && Grouped(old(codes), GroupsOf(rows), radius) ==>
                (Grouped(codes, GroupsOf(rows), radius)
                 <==> !HasNeighbour(old(codes), radius, id) || HoldsTogether(old(codes), GroupsOf(rows), radius, id))
    {
      hide InSubstrings, InDistances, IsCode, Shared, Labelled, HasNeighbour, HoldsTogether;
      if phash.None? {
        return;
      }
      codes := codes - {id};
      match index {
        case Substrings(m) => LeaveSubstrings(m, id, phash.value, old(codes));
        case Distances(t) => LeaveDistances(t, id, phash.value, old(codes));
      }
      FewerShare(old(codes), GroupsOf(rows), radius, id);
      if id in old(codes) && Grouped(old(codes), GroupsOf(rows), radius) {
        RemovalGroups(old(codes), GroupsOf(rows), radius, id);
      }
    }
  }

  /** The codes of the images that are not in the trash. */
  function Live(rows: map<Id, FileRow>): Codes {
    map i | i in rows && rows[i].phash.Some? && !rows[i].trashed :: rows[i].phash.value
  }

  /** Those of them whose rows were already read. */
  ghost function Loaded(rows: map<Id, FileRow>, left: set<Id>): Codes {
    Live(rows) - left
  }

  lemma LiveNone(rows: map<Id, FileRow>)
    ensures Loaded(rows, rows.Keys) == map[] && Loaded(rows, {}) == Live(rows)
  {}

  lemma LiveNext(rows: map<Id, FileRow>, left: set<Id>, i: Id)
    requires i in left && left <= rows.Keys
    ensures i !in Loaded(rows, left)
    ensures if rows[i].phash.Some? && !rows[i].trashed
            then Loaded(rows, left - {i}) == Loaded(rows, left)[i := rows[i].phash.value]
                 && |Loaded(rows, left - {i})| == |Loaded(rows, left)| + 1
            else Loaded(rows, left - {i}) == Loaded(rows, left)
  {}

  lemma Isolated(codes: Codes, groups: Groups, radius: nat, x: Id, c: nat)
    requires x !in codes && x in groups && Near(codes, c, radius) == {}
    ensures Shared(codes, groups, radius) ==> Shared(codes[x := c], groups, radius)
    ensures Grouped(codes, groups, radius) ==> (Grouped(codes[x := c], groups, radius) <==> groups[x].None?)
  {
    hide Shared, Labelled, Near;
    if Shared(codes, groups, radius) {
      IsolatedShares(codes, groups, radius, x, c);
    }
    if groups[x].Some? {
      StaleLabel(codes, groups, radius, x, c);
    } else if Labelled(codes, groups, radius) {
      IsolatedLabels(codes, groups, radius, x, c);
    }
  }

  lemma Relabels(codes: Codes, groups: Groups, radius: nat, x: Id, c: nat, root: Id)
    requires x !in codes && x in groups && Near(codes, c, radius) != {}
    requires IsLeast(root, Merged(codes, groups, radius, x, c))
    ensures var after := Relabelled(groups, root, Near(codes, c, radius), x);
            x in after && after[x] == Some(root) && after.Keys == groups.Keys
            && (Shared(codes, groups, radius) ==> Shared(codes[x := c], after, radius))
            && (Grouped(codes, groups, radius) ==> Grouped(codes[x := c], after, radius))
  {
    hide Shared, Labelled, Near, Merged;
    if Shared(codes, groups, radius) {
      RelabelShares(codes, groups, radius, x, c, root);
    }
    if Grouped(codes, groups, radius) {
      RelabelGroups(codes, groups, radius, x, c, root);
    }
  }
}
