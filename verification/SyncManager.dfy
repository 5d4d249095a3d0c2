/** The manifest of every device: a table, and a hash trie built from it on first use and kept in step. */
module SyncManager {
  import opened Wrappers
  import opened LinearAlgebra
  import opened HexDigits
  import opened SortedSets
  import opened MerkleTrie
  import opened Merkle
  import opened Sequences

  type DeviceId = string

  /** How many names one query may hold. */
  const BATCH: nat := 500

  datatype Reconciled = Reconciled(linked: nat, removed: nat, needUpload: seq<string>, processing: seq<string>)

  function CharCode(c: char): int {
    c as int
  }

  function SortedNames(s: set<string>): (r: seq<string>)
    ensures |r| == |s| && Elements(r) == s && Distinct(r)
  {
    Sorted(s, CharCode)
  }

  /** The names in lower case. */
  function LowerAll(l: seq<string>): set<string> {
    set h | h in l :: Lower(h)
  }

  lemma LoweredDigests(l: seq<string>)
    requires forall i :: 0 <= i < |l| ==> Acceptable(l[i])
    ensures AllDigests(LowerAll(l))
  {
    hide FromHex, Lower;
    forall h | h in l ensures IsDigest(Lower(h)) {
      var i :| 0 <= i < |l| && l[i] == h;
      LowerTwice(h);
      ParsedHex(h);
    }
  }

  lemma ElementsOfMore(h: string, l: seq<string>)
    ensures Elements([h] + l) == {h} + Elements(l)
  {}

  /** The names of the list that are, or are not, in s, in the list's order. */
  function Select(l: seq<string>, s: set<string>, inside: bool): (r: seq<string>)
    ensures Elements(r) == if inside then Elements(l) * s else Elements(l) - s
    ensures Distinct(l) ==> Distinct(r)
  {
    if l == [] then []
    else
      var rest := Select(l[1..], s, inside);
      ElementsOfMore(l[0], l[1..]);
      ElementsOfMore(l[0], rest);
      assert l == [l[0]] + l[1..] && (l[0] in rest <==> l[0] in Elements(rest));
      if (l[0] in s) == inside then [l[0]] + rest else rest
  }

  ghost predicate AllDigests(s: set<string>) {
    forall h :: h in s ==> IsDigest(h)
  }

  lemma DigestName(h: string)
    requires IsDigest(h)
    ensures Acceptable(h) && ToHex(Named(h).value) == h
  {
    ParsedHex(h);
  }

  lemma NamesOfDigests(l: seq<string>)
    requires AllDigests(Elements(l))
    ensures Digests(NamedBy(l)) && Names(NamedBy(l)) == Elements(l)
    ensures forall i :: 0 <= i < |l| ==> Acceptable(l[i])
  {
    hide IsDigest, Named;
    forall i | 0 <= i < |l| ensures Acceptable(l[i]) && ToHex(Named(l[i]).value) == l[i] {
      assert l[i] in Elements(l);
      DigestName(l[i]);
    }
    forall i | 0 <= i < |l| ensures l[i] in Names(NamedBy(l)) {
      assert Named(l[i]).value in NamedBy(l);
    }
  }

  lemma NamesAddOne(s: set<Vec>, h: string)
    requires IsDigest(h)
    ensures Named(h).Some? && Names(s + {Named(h).value}) == Names(s) + {h}
    ensures Named(h).value in s <==> h in Names(s)
    ensures Names(s - {Named(h).value}) == Names(s) - {h}
  {
    hide IsDigest, Named;
    DigestName(h);
    var x := Named(h).value;
    assert Names({x}) == {h};
    NamesPlus(s, {x});
    NamesMinus(s, {x});
    if h in Names(s) {
      var y :| y in s && ToHex(y) == h;
      HexInjective(x, y);
    }
  }

  lemma ElementsMore(l: seq<string>, i: nat)
    requires i < |l|
    ensures Elements(l[..i + 1]) == Elements(l[..i]) + {l[i]}
  {
    assert l[..i + 1] == l[..i] + [l[i]];
  }

  lemma CountNew(e: set<string>, before: set<string>, h: string)
    ensures |e + {h} - before| == |e - before| + if h in e || h in before then 0 else 1
    ensures |(e + {h}) * before| == |e * before| + if h !in e && h in before then 1 else 0
  {
    if h in e || h in before {
      assert e + {h} - before == e - before;
    } else {
      assert e + {h} - before == e - before + {h};
    }
    if h !in e && h in before {
      assert (e + {h}) * before == e * before + {h};
    } else {
      assert (e + {h}) * before == e * before;
    }
  }

  // ---------------------------------------------------------------- names and digests

  /** The digests with these names. */
  function Raw(s: set<string>): (r: set<Vec>)
    requires AllDigests(s)
    ensures Digests(r)
  {
    hide Named, IsDigest;
    forall h | h in s ensures Acceptable(h) {
      DigestName(h);
    }
    set h | h in s :: Named(h).value
  }

  lemma NameIsDigest(x: Vec)
    requires |x| == 32
    ensures IsDigest(ToHex(x)) && Named(ToHex(x)) == Some(x)
  {
    DigestHex(x);
    ParsedHex(ToHex(x));
  }

  lemma RawOfNames(m: set<Vec>)
    requires Digests(m)
    ensures AllDigests(Names(m)) && Raw(Names(m)) == m
  {
    hide IsDigest, Named;
    forall x | x in m ensures IsDigest(ToHex(x)) && Named(ToHex(x)) == Some(x) {
      NameIsDigest(x);
    }
    forall x | x in m ensures x in Raw(Names(m)) {
      assert ToHex(x) in Names(m);
    }
  }

  lemma NamesOfOne(x: Vec)
    ensures Names({x}) == {ToHex(x)}
  {
    hide ToHex;
  }

  lemma {:induction false} NamesSize(m: set<Vec>)
    requires Digests(m)
    ensures |Names(m)| == |m|
    decreases |m|
  {
    hide ToHex;
    if m != {} {
      var x :| x in m;
      NamesSize(m - {x});
      NamesOfOne(x);
      NamesMinus(m, {x});
      assert m == m - {x} + {x};
      NamesPlus(m - {x}, {x});
      assert |Names(m - {x}) + {ToHex(x)}| == |Names(m - {x})| + 1;
    }
  }

  lemma NamesApart(a: set<Vec>, b: set<Vec>)
    requires Digests(a) && Digests(b)
    ensures Names(a) == Names(b) <==> a == b
  {
    hide Names, Raw;
    RawOfNames(a);
    RawOfNames(b);
  }

  // ---------------------------------------------------------------- many at once

  /** Adds one after the other and counts the new ones. */
  method AddAll(t: MerkleTree, hashes: seq<string>) returns (n: nat)
    requires t.Valid() && AllDigests(Elements(hashes))
    modifies t
    ensures t.Valid() && Names(t.members) == old(Names(t.members)) + Elements(hashes)
    ensures n == |Elements(hashes) - old(Names(t.members))|
  {
    hide *;
    n := 0;
    ghost var before := Names(t.members);
    NoElements(hashes);
    for i := 0 to |hashes|
      invariant t.Valid() && Names(t.members) == before + Elements(hashes[..i])
      invariant n == |Elements(hashes[..i]) - before|
    {
      ElementsMore(hashes, i);
      ElementIsDigest(hashes, i);
      NamesAddOne(t.members, hashes[i]);
      CountNew(Elements(hashes[..i]), before, hashes[i]);
      var r := t.Add(hashes[i]);
      if r.value {
        n := n + 1;
      }
    }
    assert hashes[..|hashes|] == hashes;
  }

  /** Removes one after the other and counts those that were there. */
  method RemoveAll(t: MerkleTree, hashes: seq<string>) returns (n: nat)
    requires t.Valid() && AllDigests(Elements(hashes))
    modifies t
    ensures t.Valid() && Names(t.members) == old(Names(t.members)) - Elements(hashes)
    ensures n == |Elements(hashes) * old(Names(t.members))|
  {
    hide *;
    n := 0;
    ghost var before := Names(t.members);
    NoElements(hashes);
    for i := 0 to |hashes|
      invariant t.Valid() && Names(t.members) == before - Elements(hashes[..i])
      invariant n == |Elements(hashes[..i]) * before|
    {
      ElementsMore(hashes, i);
      ElementIsDigest(hashes, i);
      NamesAddOne(t.members, hashes[i]);
      CountNew(Elements(hashes[..i]), before, hashes[i]);
      var r := t.Remove(hashes[i]);
      if r.value {
        n := n + 1;
      }
    }
    assert hashes[..|hashes|] == hashes;
  }

  lemma NoElements(l: seq<string>)
    ensures Elements(l[..0]) == {}
  {}

  lemma ElementIsDigest(l: seq<string>, i: nat)
    requires i < |l| && AllDigests(Elements(l))
    ensures IsDigest(l[i]) && Acceptable(l[i])
  {
    hide IsDigest, Acceptable;
    assert l[i] in Elements(l);
    DigestName(l[i]);
  }

  // ---------------------------------------------------------------- the manager

  class SyncManager {
    const sha: Sha
    var items: map<DeviceId, set<string>>
    /** The contents that the archive has, or had. */
    var files: set<string>
    /** The contents queued for ingestion or being ingested. */
    var jobs: set<string>
    var trees: map<DeviceId, MerkleTree>

    ghost function Footprint(): set<object>
      reads this
    {
      set d | d in trees :: trees[d]
    }

    function Manifest(device: DeviceId): set<string>
      reads this
    {
      if device in items then items[device] else {}
    }

    /** No two devices share a trie, and the table holds digests only. */
    ghost predicate Shaped()
      reads this, Footprint()
    {
      Sized(sha) && (forall d :: d in items ==> AllDigests(items[d]))
      && (forall d :: d in trees ==> trees[d].Valid() && trees[d].sha == sha)
      && (forall d, e :: d in trees && e in trees && d != e ==> trees[d] != trees[e])
    }

    /** The device's trie, if in memory, holds exactly the device's rows. */
    ghost predicate InStep(device: DeviceId)
      reads this, Footprint()
    {
      device in trees ==> Names(trees[device].members) == Manifest(device)
    }

    ghost predicate Valid()
      reads this, Footprint()
    {
      Shaped() && forall d :: d in trees ==> InStep(d)
    }

    ghost predicate OthersInStep(device: DeviceId)
      reads this, Footprint()
    {
      forall d :: d in trees && d != device ==> InStep(d)
    }

    constructor (sha: Sha, items: map<DeviceId, set<string>>, files: set<string>, jobs: set<string>)
      requires Sized(sha) && forall d :: d in items ==> AllDigests(items[d])
      ensures Valid() && this.sha == sha && this.items == items && this.files == files && this.jobs == jobs
              && trees == map[]
    {
      this.sha, this.items, this.files, this.jobs, trees := sha, items, files, jobs, map[];
    }

    /** The device's trie, built from the table the first time. */
    method Tree(device: DeviceId) returns (t: MerkleTree)
      requires Shaped()
      modifies this`trees
      ensures Shaped() && device in trees && t == trees[device]
      ensures device in old(trees) ==> trees == old(trees)
      ensures device !in old(trees) ==> trees == old(trees)[device := t] && fresh(t) && InStep(device)
      ensures old(Valid()) ==> Valid()
      ensures old(OthersInStep(device)) ==> OthersInStep(device)
    {
      hide Names, IsDigest, NamedBy, Named, Acceptable, Cached, InBuckets, Elements, Sorted, Digests;
      if device in trees {
        return trees[device];
      }
      var rows := SortedNames(Manifest(device));
      NamesOfDigests(rows);
      var made := MerkleTree.Made(sha, rows);
      t := made.value;
      trees := trees[device := t];
    }

    /** Nothing but this device's rows changes. */
    twostate predicate Only(device: DeviceId)
      reads this
    {
      files == old(files) && jobs == old(jobs) && forall d :: d != device ==> Manifest(d) == old(Manifest(d))
    }

    /** Filling a trie's cache disturbs nothing. */
    twostate lemma OnlyCached(t: MerkleTree)
      requires old(Valid()) && unchanged(this) && t.Valid() && t.members == old(t.members)
      requires forall d :: d in trees && trees[d] != t ==> unchanged(trees[d])
      ensures Valid()
    {
      hide Names, AllDigests, Sized, IsDigest, MerkleTree.Valid;
    }

    /** The root and the number of members of the device's trie, as the client asks for first. */
    method SyncRoot(device: DeviceId) returns (root: Vec, count: nat)
      requires Valid()
      modifies this`trees, Footprint()
      ensures Valid() && fresh(Footprint() - old(Footprint())) && items == old(items) && device in trees
      ensures Names(trees[device].members) == Manifest(device)
      ensures Digests(trees[device].members) && root == Node(sha, trees[device].members, "")
              && count == |Manifest(device)|
    {
      hide Names, AllDigests, Sized, InBuckets, Cached, Node;
      var t := Tree(device);
      assert InStep(device) && t.Valid();
      label built:
      root := t.Root();
      OnlyCached@built(t);
      count := t.Count();
      NamesSize(t.members);
    }

    method SetRows(device: DeviceId, rows: set<string>)
      requires Valid() && AllDigests(rows)
      modifies this`items
      ensures Shaped() && OthersInStep(device) && Manifest(device) == rows && Only(device)
    {
      hide Names, AllDigests, Sized;
      items := items[device := rows];
    }

    /** Brings the device's trie in step with rows to which these were added. */
    method AddRows(device: DeviceId, hashes: seq<string>) returns (n: nat)
      requires Shaped() && OthersInStep(device) && AllDigests(Elements(hashes)) && device in trees
      requires Names(trees[device].members) + Elements(hashes) == Manifest(device)
      modifies trees[device]
      ensures Valid() && n == |Elements(hashes) - old(Names(trees[device].members))|
    {
      hide Names, Elements, AllDigests, Sized, IsDigest, MerkleTree.Valid;
      n := AddAll(trees[device], hashes);
    }

    /** Brings the device's trie in step with rows from which these were removed. */
    method RemoveRows(device: DeviceId, hashes: seq<string>) returns (n: nat)
      requires Shaped() && OthersInStep(device) && AllDigests(Elements(hashes)) && device in trees
      requires Names(trees[device].members) - Elements(hashes) == Manifest(device)
      modifies trees[device]
      ensures Valid() && n == |Elements(hashes) * old(Names(trees[device].members))|
    {
      hide Names, Elements, AllDigests, Sized, IsDigest, MerkleTree.Valid;
      n := RemoveAll(trees[device], hashes);
    }

    lemma RowsAreDigests(device: DeviceId)
      requires Shaped()
      ensures AllDigests(Manifest(device))
    {
      hide IsDigest;
    }

    lemma ValidParts(device: DeviceId)
      requires Valid()
      ensures Shaped() && (device in trees ==> Names(trees[device].members) == Manifest(device))
    {}

    /** Changes the rows in the table; the trie, if in memory, is as before, and otherwise is built from the new
        rows. */
    method Rebase(device: DeviceId, rows: set<string>)
      requires Valid() && AllDigests(rows)
      modifies this`items, this`trees
      ensures Shaped() && OthersInStep(device) && device in trees && Manifest(device) == rows && Only(device)
      ensures fresh(Footprint() - old(Footprint()))
      ensures if device in old(trees) then trees == old(trees)
              && old(Names(trees[device].members)) == old(Manifest(device))
              else fresh(trees[device]) && Names(trees[device].members) == rows
    {
      hide Names, Elements, AllDigests, Sized, IsDigest, MerkleTree.Valid, Valid, Shaped, OthersInStep;
      ValidParts(device);
      SetRows(device, rows);
      var _ := Tree(device);
    }

    /** The rows are added; the count is of those that the trie did not have, none if it was not in memory yet. */
    method Link(device: DeviceId, hashes: seq<string>) returns (n: nat)
      requires Valid() && AllDigests(Elements(hashes))
      modifies this, Footprint()
      ensures Valid() && fresh(Footprint() - old(Footprint()))
      ensures Manifest(device) == old(Manifest(device)) + Elements(hashes) && Only(device)
      ensures device in old(trees) ==> device in trees
      ensures n == if device in old(trees) then |Elements(hashes) - old(Manifest(device))| else 0
    {
      if hashes == [] {
        return 0;
      }
      n := LinkSome(device, hashes);
    }

    method LinkSome(device: DeviceId, hashes: seq<string>) returns (n: nat)
      requires Valid() && AllDigests(Elements(hashes))
      modifies this, Footprint()
      ensures Valid() && fresh(Footprint() - old(Footprint()))
      ensures Manifest(device) == old(Manifest(device)) + Elements(hashes) && Only(device) && device in trees
      ensures n == if device in old(trees) then |Elements(hashes) - old(Manifest(device))| else 0
    {
      hide Names, Elements, AllDigests, Sized, IsDigest, MerkleTree.Valid, Valid, Shaped, OthersInStep, InStep;
      ghost var before := Manifest(device);
      ValidParts(device);
      RowsAreDigests(device);
      MoreDigests(before, Elements(hashes));
      NoneCounted(Elements(hashes), before);
      Rebase(device, Manifest(device) + Elements(hashes));
      n := AddRows(device, hashes);
    }

    method Unlink(device: DeviceId, hashes: seq<string>) returns (n: nat)
      requires Valid() && AllDigests(Elements(hashes))
      modifies this, Footprint()
      ensures Valid() && fresh(Footprint() - old(Footprint()))
      ensures Manifest(device) == old(Manifest(device)) - Elements(hashes) && Only(device)
      ensures device in old(trees) ==> device in trees
      ensures n == if device in old(trees) then |Elements(hashes) * old(Manifest(device))| else 0
    {
      if hashes == [] {
        return 0;
      }
      n := UnlinkSome(device, hashes);
    }

    method UnlinkSome(device: DeviceId, hashes: seq<string>) returns (n: nat)
      requires Valid() && AllDigests(Elements(hashes))
      modifies this, Footprint()
      ensures Valid() && fresh(Footprint() - old(Footprint()))
      ensures Manifest(device) == old(Manifest(device)) - Elements(hashes) && Only(device) && device in trees
      ensures n == if device in old(trees) then |Elements(hashes) * old(Manifest(device))| else 0
    {
      hide Names, Elements, AllDigests, Sized, IsDigest, MerkleTree.Valid, Valid, Shaped, OthersInStep, InStep;
      ghost var before := Manifest(device);
      ValidParts(device);
      RowsAreDigests(device);
      FewerDigests(before, Elements(hashes));
      NoneCounted(Elements(hashes), before);
      Rebase(device, Manifest(device) - Elements(hashes));
      n := RemoveRows(device, hashes);
    }

    /** The names of the list whose content the archive knows, asked for in batches. */
    method Known(names: seq<string>) returns (known: set<string>)
      ensures known == Elements(names) * files
    {
      known := {};
      var i := 0;
      while i < |names|
        invariant i <= |names| && known == Elements(names[..i]) * files
      {
        var end := if i + BATCH < |names| then i + BATCH else |names|;
        assert names[..end] == names[..i] + names[i..end];
        known := known + Elements(names[i..end]) * files;
        i := end;
      }
      assert names[..|names|] == names;
    }

    /** What the client is told about the names that the archive does not know. */
    method Answer(wanted: seq<string>, known: set<string>) returns (needUpload: seq<string>, processing: seq<string>)
      requires Distinct(wanted)
      ensures Elements(needUpload) == Elements(wanted) - known - jobs && Distinct(needUpload)
      ensures Elements(processing) == (Elements(wanted) - known) * jobs && Distinct(processing)
    {
      hide Distinct, Elements;
      var need := Select(wanted, known, false);
      var pending := if need != [] then jobs else {};
      needUpload, processing := Select(need, pending, false), Select(need, pending, true);
      if need == [] {
        NoElements(need);
        assert need == need[..0];
      }
    }

    method Apply(device: DeviceId, known: set<string>, unwanted: seq<string>) returns (linked: nat)
      requires Valid() && AllDigests(known) && AllDigests(Elements(unwanted))
      modifies this, Footprint()
      ensures Valid() && fresh(Footprint() - old(Footprint())) && Only(device)
      ensures Manifest(device) == old(Manifest(device)) + known - Elements(unwanted)
      ensures linked == if device in old(trees) then |known - old(Manifest(device))| else 0
    {
      hide Names, Elements, AllDigests, Sized, Valid, Distinct;
      linked := Link(device, SortedNames(known));
      var _ := Unlink(device, unwanted);
    }

    /** Applies the client's difference: what the archive knows is linked, what is to go is unlinked, and every other
        name comes back either as to be uploaded or as being processed. */
    method Reconcile(device: DeviceId, add: seq<string>, remove: seq<string>) returns (r: Reconciled)
      requires Valid() && (forall i :: 0 <= i < |add| ==> Acceptable(add[i]))
      requires forall i :: 0 <= i < |remove| ==> Acceptable(remove[i])
      modifies this, Footprint()
      ensures Valid() && fresh(Footprint() - old(Footprint())) && Only(device)
      ensures Manifest(device) == old(Manifest(device)) + LowerAll(add) * files - LowerAll(remove)
      ensures Elements(r.needUpload) == LowerAll(add) - files - jobs && Distinct(r.needUpload)
      ensures Elements(r.processing) == (LowerAll(add) - files) * jobs && Distinct(r.processing)
      ensures r.removed == |LowerAll(remove)|
      ensures r.linked == if device in old(trees) then |LowerAll(add) * files - old(Manifest(device))| else 0
    {
      hide Names, Elements, AllDigests, Sized, Valid, LowerAll, Acceptable, Distinct;
      LoweredDigests(add);
      LoweredDigests(remove);
      var wanted := SortedNames(LowerAll(add));
      var unwanted := SortedNames(LowerAll(remove));
      var known := Known(wanted);
      SomeDigests(Elements(wanted), known);
      var linked := Apply(device, known, unwanted);
      var needUpload, processing := Answer(wanted, known);
      assert Elements(wanted) - known == Elements(wanted) - files;
      r := Reconciled(linked, |unwanted|, needUpload, processing);
    }
  }

  lemma SomeDigests(s: set<string>, t: set<string>)
    requires AllDigests(s) && t <= s
    ensures AllDigests(t)
  {
    hide IsDigest;
  }

  lemma NoneCounted(e: set<string>, before: set<string>)
    ensures |e - (before + e)| == 0 && |e * (before - e)| == 0
  {
    assert e - (before + e) == {} && e * (before - e) == {};
  }

  lemma MoreDigests(s: set<string>, t: set<string>)
    requires AllDigests(t)
    ensures AllDigests(s) ==> AllDigests(s + t)
    ensures AllDigests({})
  {
    hide IsDigest;
  }

  lemma FewerDigests(s: set<string>, t: set<string>)
    ensures AllDigests(s) ==> AllDigests(s - t)
    ensures AllDigests({})
  {
    hide IsDigest;
  }
}
