/** A tree over codes whose edges are labelled by Hamming distance, searched with the triangle inequality. */
module BKTree {
  import opened Hamming
  import opened Mih
  import opened Sequences

  datatype Entry = Entry(code: nat, item: Id)

  class BKNode {
    const hash: nat
    var ids: seq<Id>
    var children: map<nat, BKNode>

    constructor (h: nat, item: Id)
      ensures hash == h && ids == [item] && children == map[]
    {
      hash, ids, children := h, [item], map[];
    }
  }

  // ---------------------------------------------------------------- shape

  /** The children of every node, by edge. */
  type Links = map<BKNode, map<nat, BKNode>>

  /** The nodes from the root down to each node. */
  type Trails = map<BKNode, seq<BKNode>>

  /** From each node of t, the edge of its distance to h leads to the next one. */
  ghost predicate Towards(links: Links, t: seq<BKNode>, h: nat) {
    (forall i :: 0 <= i < |t| ==> t[i] in links)
    && forall i :: 0 <= i < |t| - 1 ==>
         Dist(t[i].hash, h) in links[t[i]] && links[t[i]][Dist(t[i].hash, h)] == t[i + 1]
  }

  /** t leads from the root to n, and its beginnings lead to the nodes on the way. */
  ghost predicate Trail(root: BKNode?, links: Links, trails: Trails, n: BKNode, t: seq<BKNode>) {
    t != [] && t[0] == root && t[|t| - 1] == n && Towards(links, t, n.hash)
    && forall i :: 0 <= i < |t| ==> t[i] in trails && trails[t[i]] == t[..i + 1]
  }

  /** Every child is a node at the distance of its edge, and its trail is its parent's and itself. */
  ghost predicate Children(links: Links, trails: Trails, n: BKNode)
    requires n in links && n in trails
  {
    forall e :: e in links[n] ==>
                  var c := links[n][e];
                  c in links && Dist(n.hash, c.hash) == e && c in trails && trails[c] == trails[n] + [c]
  }

  ghost predicate Shaped(root: BKNode?, links: Links, trails: Trails) {
    trails.Keys == links.Keys
    && (if root == null then links == map[] else root in links)
    && (forall n :: n in links ==> Trail(root, links, trails, n, trails[n]) && Children(links, trails, n))
    && (forall n, m :: n in links && m in links && n.hash == m.hash ==> n == m)
  }

  lemma Tracked(root: BKNode?, links: Links, trails: Trails)
    requires Shaped(root, links, trails)
    ensures trails.Keys == links.Keys
  {}

  lemma BothTrails(root: BKNode?, links: Links, trails: Trails, n: BKNode, m: BKNode)
    requires Shaped(root, links, trails) && n in links && m in links && trails[n] <= trails[m]
    ensures Towards(links, trails[m], m.hash) && trails[n] != [] && trails[m][|trails[n]| - 1] == n
    ensures trails[m][|trails[m]| - 1] == m
  {
    hide Towards, Children;
    assert Trail(root, links, trails, n, trails[n]) && Trail(root, links, trails, m, trails[m]);
  }

  lemma ChildIsNew(root: BKNode?, links: Links, trails: Trails, n: BKNode, e: nat)
    requires Shaped(root, links, trails) && n in links && e in links[n]
    ensures var c := links[n][e];
            c in links && Dist(n.hash, c.hash) == e && c !in trails[n] && trails[c] == trails[n] + [c]
  {
    hide Towards, Dist;
    assert Children(links, trails, n) && Trail(root, links, trails, n, trails[n]);
  }

  /** The trail of n leads towards h, and all nodes with this code are found below n. */
  ghost predicate Ahead(links: Links, trails: Trails, n: BKNode, h: nat) {
    trails.Keys == links.Keys && n in links && Towards(links, trails[n], h)
    && forall m :: m in links && m.hash == h ==> trails[n] <= trails[m]
  }

  lemma NextAhead(root: BKNode?, links: Links, trails: Trails, n: BKNode, c: BKNode, m: BKNode)
    requires Shaped(root, links, trails) && n in links && m in links && trails[n] <= trails[m] && m != n
    requires Dist(n.hash, m.hash) in links[n] && c == links[n][Dist(n.hash, m.hash)]
    ensures c in links && trails[c] == trails[n] + [c] && trails[c] <= trails[m]
  {
    hide Dist, Shaped, Trail, Children;
    Tracked(root, links, trails);
    BothTrails(root, links, trails, n, m);
    ChildIsNew(root, links, trails, n, Dist(n.hash, m.hash));
    assert |trails[m]| != |trails[n]|;
    assert trails[m][|trails[n]|] == c;
  }

  lemma TowardsNext(root: BKNode?, links: Links, trails: Trails, n: BKNode, h: nat)
    requires Shaped(root, links, trails) && n in links && Towards(links, trails[n], h) && Dist(n.hash, h) in links[n]
    ensures var c := links[n][Dist(n.hash, h)];
            c in links && Towards(links, trails[c], h) && Elements(trails[n]) < Elements(trails[c]) <= links.Keys
  {
    hide Dist, Shaped, Trail, Children;
    Tracked(root, links, trails);
    BothTrails(root, links, trails, n, n);
    ChildIsNew(root, links, trails, n, Dist(n.hash, h));
    var c := links[n][Dist(n.hash, h)];
    assert c in Elements(trails[c]);
  }

  lemma StepDown(root: BKNode?, links: Links, trails: Trails, n: BKNode, h: nat)
    requires Shaped(root, links, trails) && Ahead(links, trails, n, h) && n.hash != h && Dist(n.hash, h) in links[n]
    ensures var c := links[n][Dist(n.hash, h)];
            Ahead(links, trails, c, h) && Elements(trails[n]) < Elements(trails[c]) <= links.Keys
  {
    hide Dist, Shaped, Trail, Children, Towards;
    var c := links[n][Dist(n.hash, h)];
    TowardsNext(root, links, trails, n, h);
    forall m | m in links && m.hash == h ensures trails[c] <= trails[m] {
      NextAhead(root, links, trails, n, c, m);
    }
  }

  lemma NoStepDown(root: BKNode?, links: Links, trails: Trails, n: BKNode, h: nat)
    requires Shaped(root, links, trails) && Ahead(links, trails, n, h)
    requires n.hash == h || Dist(n.hash, h) !in links[n]
    ensures forall m :: m in links && m.hash == h ==> m == n
  {
    hide Dist, Trail, Children;
    forall m | m in links && m.hash == h ensures m == n {
      BothTrails(root, links, trails, n, m);
      assert |trails[m]| == |trails[n]|;
    }
  }

  /** The tree with c hung from n. */
  ghost function WithChild(links: Links, n: BKNode, d: nat, c: BKNode): Links
    requires n in links
  {
    var inner: map<nat, BKNode> := links[n];
    links[n := inner[d := c]][c := map[]]
  }

  lemma TowardsKept(links: Links, n: BKNode, d: nat, c: BKNode, t: seq<BKNode>, h: nat)
    requires n in links && c !in links && d !in links[n] && Towards(links, t, h)
    ensures Towards(WithChild(links, n, d, c), t, h)
  {
    hide Dist;
    forall i | 0 <= i < |t| - 1 ensures links[t[i]].Items <= WithChild(links, n, d, c)[t[i]].Items {}
  }

  lemma TrailKept(root: BKNode, links: Links, trails: Trails, n: BKNode, d: nat, c: BKNode, t: seq<BKNode>, m: BKNode)
    requires n in links && m in links && c !in links && d !in links[n] && trails.Keys == links.Keys
    requires Trail(root, links, trails, m, trails[m])
    ensures Trail(root, WithChild(links, n, d, c), trails[c := t], m, trails[m])
  {
    hide Dist, Towards, WithChild;
    TowardsKept(links, n, d, c, trails[m], m.hash);
  }

  lemma ChildrenKept(links: Links, trails: Trails, n: BKNode, c: BKNode, m: BKNode)
    requires n in links && n in trails && c !in links && trails.Keys == links.Keys && m in links
    requires Children(links, trails, m)
    ensures m in WithChild(links, n, Dist(n.hash, c.hash), c)
    ensures Children(WithChild(links, n, Dist(n.hash, c.hash), c), trails[c := trails[n] + [c]], m)
  {
    hide Dist;
  }

  lemma NewTrail(root: BKNode, links: Links, trails: Trails, n: BKNode, c: BKNode)
    requires trails.Keys == links.Keys && n in links && c !in links && Dist(n.hash, c.hash) !in links[n]
    requires Trail(root, links, trails, n, trails[n]) && Towards(links, trails[n], c.hash)
    ensures Trail(root, WithChild(links, n, Dist(n.hash, c.hash), c), trails[c := trails[n] + [c]], c, trails[n] + [c])
  {
    hide Dist;
    var d := Dist(n.hash, c.hash);
    TowardsKept(links, n, d, c, trails[n], c.hash);
    assert WithChild(links, n, d, c)[n][d] == c;
  }

  lemma ShapedParts(root: BKNode?, links: Links, trails: Trails)
    requires Shaped(root, links, trails)
    ensures forall n, m :: n in links && m in links && n.hash == m.hash ==> n == m
    ensures forall n :: n in links ==>
              n in trails && Trail(root, links, trails, n, trails[n]) && Children(links, trails, n)
    ensures if root == null then links == map[] else root in links
  {
    hide Trail, Children;
  }

  lemma LinksWithChild(links: Links, n: BKNode, d: nat, c: BKNode)
    requires n in links && c !in links
    ensures var more := WithChild(links, n, d, c);
            more.Keys == links.Keys + {c} && more[c] == map[]
            && forall m :: m in links && m != n ==> more[m] == links[m]
    ensures var inner: map<nat, BKNode> := links[n];
            WithChild(links, n, d, c)[n] == inner[d := c]
  {}

  lemma NoChildren(links: Links, trails: Trails, c: BKNode)
    requires c in links && c in trails && links[c] == map[]
    ensures Children(links, trails, c)
  {}

  /** A node may be hung from the last node on the way to its code. */
  lemma Hung(root: BKNode, links: Links, trails: Trails, n: BKNode, c: BKNode)
    requires Shaped(root, links, trails) && Ahead(links, trails, n, c.hash)
    requires Dist(n.hash, c.hash) !in links[n] && n.hash != c.hash && c !in links
    ensures Shaped(root, WithChild(links, n, Dist(n.hash, c.hash), c), trails[c := trails[n] + [c]])
  {
    hide Dist, Towards, Trail, Children;
    var d := Dist(n.hash, c.hash);
    NoStepDown(root, links, trails, n, c.hash);
    NewTrail(root, links, trails, n, c);
    var more, longer := WithChild(links, n, d, c), trails[c := trails[n] + [c]];
    forall m | m in links ensures Trail(root, more, longer, m, longer[m]) && Children(more, longer, m) {
      TrailKept(root, links, trails, n, d, c, trails[n] + [c], m);
      ChildrenKept(links, trails, n, c, m);
    }
    NoChildren(more, longer, c);
    assert more.Keys == longer.Keys == links.Keys + {c};
  }

  // ---------------------------------------------------------------- contents

  /** The ids at every node. */
  type Lists = map<BKNode, seq<Id>>

  ghost function Plus(entries: multiset<Entry>, e: Entry): (r: multiset<Entry>)
    ensures |r| == |entries| + 1
  {
    entries + multiset{e}
  }

  ghost function Minus(entries: multiset<Entry>, e: Entry): (r: multiset<Entry>)
    requires e in entries
    ensures |r| == |entries| - 1
  {
    entries - multiset{e}
  }

  /** n's ids are those entered under its code. */
  ghost predicate Fits(lists: Lists, entries: multiset<Entry>, n: BKNode)
    requires n in lists
  {
    forall item :: multiset(lists[n])[item] == entries[Entry(n.hash, item)]
  }

  ghost predicate HasNode(lists: Lists, code: nat) {
    exists n :: n in lists && n.hash == code
  }

  /** Each node has the ids of its code, and each code has a node. */
  ghost predicate Filled(lists: Lists, entries: multiset<Entry>) {
    (forall n :: n in lists ==> Fits(lists, entries, n)) && (forall e :: e in entries ==> HasNode(lists, e.code))
  }

  /** Other codes' nodes hold what they held. */
  lemma FilledElsewhere(lists: Lists, entries: multiset<Entry>, more: Lists, longer: multiset<Entry>, c: BKNode)
    requires Filled(lists, entries) && more.Keys == lists.Keys + {c}
    requires forall n :: n in lists && n != c ==> more[n] == lists[n] && n.hash != c.hash
    requires forall e: Entry :: e.code != c.hash ==> longer[e] == entries[e]
    requires Fits(more, longer, c)
    ensures Filled(more, longer)
  {
    forall n | n in more ensures Fits(more, longer, n) {
      if n != c {
        assert Fits(lists, entries, n);
      }
    }
    forall e | e in longer ensures HasNode(more, e.code) {
      if e.code == c.hash {
        assert c in more;
      } else {
        assert e in entries && HasNode(lists, e.code);
        var n :| n in lists && n.hash == e.code;
        assert n in more;
      }
    }
  }

  lemma PlusCounts(entries: multiset<Entry>, e: Entry)
    ensures forall f :: Plus(entries, e)[f] == entries[f] + if f == e then 1 else 0
  {}

  lemma MinusCounts(entries: multiset<Entry>, e: Entry)
    requires e in entries
    ensures forall f :: Minus(entries, e)[f] == entries[f] - if f == e then 1 else 0
  {}

  lemma AppendCounts(l: seq<Id>, x: Id)
    ensures forall y :: multiset(l + [x])[y] == multiset(l)[y] + if y == x then 1 else 0
  {}

  lemma FilledAt(lists: Lists, entries: multiset<Entry>, n: BKNode)
    requires Filled(lists, entries) && n in lists
    ensures Fits(lists, entries, n)
  {
    hide Fits, HasNode;
  }

  lemma FitsMore(lists: Lists, entries: multiset<Entry>, n: BKNode, item: Id)
    requires n in lists && Fits(lists, entries, n)
    ensures Fits(lists[n := lists[n] + [item]], Plus(entries, Entry(n.hash, item)), n)
  {
    hide Plus;
    PlusCounts(entries, Entry(n.hash, item));
    AppendCounts(lists[n], item);
  }

  lemma FitsLess(lists: Lists, entries: multiset<Entry>, n: BKNode, item: Id)
    requires n in lists && item in lists[n] && Fits(lists, entries, n) && Entry(n.hash, item) in entries
    ensures Fits(lists[n := Without(lists[n], item)], Minus(entries, Entry(n.hash, item)), n)
  {
    hide Minus, Without;
    MinusCounts(entries, Entry(n.hash, item));
    WithoutLess(lists[n], item);
  }

  lemma WithoutLess(l: seq<Id>, x: Id)
    requires x in l
    ensures forall y :: multiset(Without(l, x))[y] == multiset(l)[y] - if y == x then 1 else 0
  {
    hide Without;
    WithoutCounts(l, x);
  }

  lemma FilledMore(root: BKNode?, links: Links, trails: Trails, lists: Lists, entries: multiset<Entry>, n: BKNode,
                   item: Id)
    requires Shaped(root, links, trails) && links.Keys == lists.Keys && Filled(lists, entries) && n in lists
    ensures Filled(lists[n := lists[n] + [item]], Plus(entries, Entry(n.hash, item)))
  {
    hide *;
    ShapedParts(root, links, trails);
    var more, longer := lists[n := lists[n] + [item]], Plus(entries, Entry(n.hash, item));
    FilledAt(lists, entries, n);
    PlusCounts(entries, Entry(n.hash, item));
    FitsMore(lists, entries, n, item);
    FilledElsewhere(lists, entries, more, longer, n);
  }

  lemma FilledNew(lists: Lists, entries: multiset<Entry>, c: BKNode, item: Id)
    requires Filled(lists, entries) && c !in lists && forall n :: n in lists ==> n.hash != c.hash
    ensures Filled(lists[c := [item]], Plus(entries, Entry(c.hash, item)))
  {
    forall x ensures entries[Entry(c.hash, x)] == 0 {
      assert Entry(c.hash, x) in entries ==> HasNode(lists, c.hash);
    }
    FilledElsewhere(lists, entries, lists[c := [item]], Plus(entries, Entry(c.hash, item)), c);
  }

  lemma FilledLess(root: BKNode?, links: Links, trails: Trails, lists: Lists, entries: multiset<Entry>, n: BKNode,
                   item: Id)
    requires Shaped(root, links, trails) && links.Keys == lists.Keys && Filled(lists, entries)
    requires n in lists && item in lists[n] && Entry(n.hash, item) in entries
    ensures Filled(lists[n := Without(lists[n], item)], Minus(entries, Entry(n.hash, item)))
  {
    hide *;
    ShapedParts(root, links, trails);
    var fewer, less := lists[n := Without(lists[n], item)], Minus(entries, Entry(n.hash, item));
    FilledAt(lists, entries, n);
    MinusCounts(entries, Entry(n.hash, item));
    FitsLess(lists, entries, n, item);
    FilledElsewhere(lists, entries, fewer, less, n);
  }

  lemma HasEntry(lists: Lists, entries: multiset<Entry>, h: nat, item: Id)
    requires Filled(lists, entries)
    ensures Entry(h, item) in entries <==> exists n :: n in lists && n.hash == h && item in lists[n]
  {
    if Entry(h, item) in entries {
      assert HasNode(lists, h);
      var n :| n in lists && n.hash == h;
      assert Fits(lists, entries, n) && multiset(lists[n])[item] > 0;
    }
    if n :| n in lists && n.hash == h && item in lists[n] {
      assert Fits(lists, entries, n) && multiset(lists[n])[item] > 0;
    }
  }

  /** The maps say what the nodes hold. */
  ghost predicate Mirrors(links: Links, lists: Lists)
    reads links.Keys
  {
    lists.Keys == links.Keys && forall n :: n in links ==> links[n] == n.children && lists[n] == n.ids
  }

  lemma MirrorsMade(links: Links, lists: Lists)
    requires lists.Keys == links.Keys && forall n :: n in links ==> links[n] == n.children && lists[n] == n.ids
    ensures Mirrors(links, lists)
  {}

  lemma MirrorParts(links: Links, lists: Lists)
    requires Mirrors(links, lists)
    ensures lists.Keys == links.Keys && forall n :: n in links ==> links[n] == n.children && lists[n] == n.ids
  {}

  // ---------------------------------------------------------------- searching

  ghost predicate ParentIn(trails: Trails, n: BKNode, visited: set<BKNode>) {
    n in trails && (|trails[n]| >= 2 ==> trails[n][|trails[n]| - 2] in visited)
  }

  /** A node on the way to m is still to be visited. */
  ghost predicate Pending(trails: Trails, m: BKNode, stack: seq<BKNode>) {
    m in trails && exists i :: 0 <= i < |trails[m]| && trails[m][i] in stack
  }

  /** No node is visited twice, and every node within the radius is visited or will be. */
  ghost predicate Searching(links: Links, trails: Trails, q: nat, radius: nat, visited: set<BKNode>,
                            stack: seq<BKNode>) {
    visited <= links.Keys && Distinct(stack)
    && (forall n :: n in stack ==> n in links && n !in visited)
    && (forall n :: n in visited ==> ParentIn(trails, n, visited))
    && (forall n :: n in stack ==> ParentIn(trails, n, visited))
    && (forall m :: m in links && Dist(m.hash, q) <= radius ==> m in visited || Pending(trails, m, stack))
  }

  /** The children along edges between lo and hi, each once. */
  ghost predicate Between(links: Links, n: BKNode, lo: int, hi: int, pushed: seq<BKNode>) {
    n in links && Distinct(pushed)
    && (forall c :: c in pushed ==> exists e :: e in links[n] && lo <= e <= hi && links[n][e] == c)
    && (forall e :: e in links[n] && lo <= e <= hi ==> links[n][e] in pushed)
  }

  lemma SearchStart(root: BKNode, links: Links, trails: Trails, q: nat, radius: nat)
    requires Shaped(root, links, trails)
    ensures Searching(links, trails, q, radius, {}, [root])
  {
    hide Dist, Shaped, Children, Towards;
    ShapedParts(root, links, trails);
    assert trails[root] == [root] by {
      assert Trail(root, links, trails, root, trails[root]);
      assert trails[trails[root][0]] == trails[root][..1];
    }
    forall m | m in links ensures Pending(trails, m, [root]) {
      assert Trail(root, links, trails, m, trails[m]);
      assert trails[m][0] in [root];
    }
  }

  /** The triangle inequality: below n, codes within the radius hang from edges in the range. */
  lemma StillPending(root: BKNode, links: Links, trails: Trails, n: BKNode, m: BKNode, q: nat, radius: nat, i: nat,
                     pushed: seq<BKNode>)
    requires Shaped(root, links, trails) && n in links && m in links && m != n && Dist(m.hash, q) <= radius
    requires i < |trails[m]| && trails[m][i] == n
    requires Between(links, n, Dist(n.hash, q) - radius, Dist(n.hash, q) + radius, pushed)
    ensures i + 1 < |trails[m]| && trails[m][i + 1] in pushed
  {
    hide Dist, Shaped, Children;
    ShapedParts(root, links, trails);
    assert Trail(root, links, trails, m, trails[m]);
    var e := Dist(n.hash, m.hash);
    Triangle(n.hash, m.hash, q);
    Triangle(n.hash, q, m.hash);
    DistSymmetric(q, m.hash);
    assert links[n][e] == trails[m][i + 1];
  }

  lemma ChildrenAreNew(root: BKNode, links: Links, trails: Trails, q: nat, radius: nat, visited: set<BKNode>,
                       stack: seq<BKNode>,
                       n: BKNode, c: BKNode, e: nat)
    requires Shaped(root, links, trails) && Searching(links, trails, q, radius, visited, stack)
    requires n in links && n !in visited && e in links[n] && links[n][e] == c
    ensures c in links && c !in visited && c !in stack && c != n && ParentIn(trails, c, visited + {n})
  {
    hide Dist, Shaped, Children, Towards;
    ShapedParts(root, links, trails);
    ChildIsNew(root, links, trails, n, e);
    assert Trail(root, links, trails, n, trails[n]);
    assert trails[c][|trails[c]| - 2] == n;
  }

  lemma ParentStaysIn(trails: Trails, n: BKNode, visited: set<BKNode>, more: set<BKNode>)
    requires ParentIn(trails, n, visited) && visited <= more
    ensures ParentIn(trails, n, more)
  {}

  lemma SearchStep(root: BKNode, links: Links, trails: Trails, q: nat, radius: nat, visited: set<BKNode>,
                   stack: seq<BKNode>,
                   pushed: seq<BKNode>)
    requires Shaped(root, links, trails) && Searching(links, trails, q, radius, visited, stack) && stack != []
    requires var n := stack[|stack| - 1];
             Between(links, n, Dist(n.hash, q) - radius, Dist(n.hash, q) + radius, pushed)
    ensures Searching(links, trails, q, radius, visited + {stack[|stack| - 1]}, stack[..|stack| - 1] + pushed)
  {
    hide Dist, Shaped, ParentIn;
    var n, rest := stack[|stack| - 1], stack[..|stack| - 1];
    assert stack == rest + [n] && n in stack && n in links;
    forall c | c in pushed ensures c in links && c !in visited + {n} && c !in stack
        && ParentIn(trails, c, visited + {n}) {
      var e :| e in links[n] && links[n][e] == c;
      ChildrenAreNew(root, links, trails, q, radius, visited, stack, n, c, e);
    }
    DistinctJoined(rest, pushed);
    forall m | m in visited || m in stack ensures ParentIn(trails, m, visited + {n}) {
      assert ParentIn(trails, m, visited);
      ParentStaysIn(trails, m, visited, visited + {n});
    }
    forall m | m in links && Dist(m.hash, q) <= radius ensures m in visited + {n} || Pending(trails, m, rest + pushed) {
      if m !in visited + {n} {
        StaysPending(root, links, trails, n, m, q, radius, rest, pushed);
      }
    }
  }

  lemma StaysPending(root: BKNode, links: Links, trails: Trails, n: BKNode, m: BKNode, q: nat, radius: nat,
                     rest: seq<BKNode>,
                     pushed: seq<BKNode>)
    requires Shaped(root, links, trails) && n in links && m in links && m != n && Dist(m.hash, q) <= radius
    requires Pending(trails, m, rest + [n])
    requires Between(links, n, Dist(n.hash, q) - radius, Dist(n.hash, q) + radius, pushed)
    ensures Pending(trails, m, rest + pushed)
  {
    hide Dist, Shaped, Between;
    var i :| 0 <= i < |trails[m]| && trails[m][i] in rest + [n];
    if trails[m][i] in rest {
      assert trails[m][i] in rest + pushed;
    } else {
      StillPending(root, links, trails, n, m, q, radius, i, pushed);
      assert trails[m][i + 1] in rest + pushed;
    }
  }

  lemma DistinctJoined(l: seq<BKNode>, k: seq<BKNode>)
    requires Distinct(l) && Distinct(k) && forall x :: x in k ==> x !in l
    ensures Distinct(l + k)
  {
    forall i, j | 0 <= i < j < |l| + |k| ensures (l + k)[i] != (l + k)[j] {
      if i < |l| <= j {
        assert l[i] in l && k[j - |l|] in k;
      }
    }
  }

  // ---------------------------------------------------------------- what is reported

  /** The entries of the visited nodes within the radius, as often as they are there. */
  ghost predicate Reported(lists: Lists, q: nat, radius: nat, visited: set<BKNode>, found: seq<Entry>) {
    (forall n, item :: n in lists ==>
                         multiset(found)[Entry(n.hash, item)]
                         == if n in visited && Dist(n.hash, q) <= radius then multiset(lists[n])[item] else 0)
    && (forall e :: e in found ==> HasNode(lists, e.code))
  }

  /** Every hit is an entry and its distance, and the entries are those within the radius, as often as they were
      added. */
  ghost predicate ScannedAll(entries: multiset<Entry>, q: nat, radius: nat, out: seq<Hit>, found: seq<Entry>) {
    Hits(q, out, found)
    && forall e: Entry :: multiset(found)[e] == if Dist(e.code, q) <= radius then entries[e] else 0
  }

  ghost predicate Hits(q: nat, out: seq<Hit>, found: seq<Entry>) {
    |out| == |found| && forall i :: 0 <= i < |out| ==> out[i] == Hit(found[i].item, Dist(found[i].code, q))
  }

  ghost function EntriesOf(code: nat, ids: seq<Id>): (r: seq<Entry>)
    ensures |r| == |ids| && forall i :: 0 <= i < |r| ==> r[i] == Entry(code, ids[i])
  {
    seq(|ids|, i requires 0 <= i < |ids| => Entry(code, ids[i]))
  }

  lemma {:induction false} EntriesCount(code: nat, ids: seq<Id>)
    ensures forall e: Entry :: multiset(EntriesOf(code, ids))[e] == if e.code == code then multiset(ids)[e.item] else 0
  {
    hide EntriesOf;
    if ids != [] {
      var rest := ids[..|ids| - 1];
      EntriesCount(code, rest);
      assert ids == rest + [ids[|ids| - 1]];
      assert EntriesOf(code, ids) == EntriesOf(code, rest) + [Entry(code, ids[|ids| - 1])];
      EntryCounts(EntriesOf(code, rest), Entry(code, ids[|ids| - 1]));
      AppendCounts(rest, ids[|ids| - 1]);
    } else {
      assert EntriesOf(code, ids) == [];
    }
  }

  lemma EntryCounts(l: seq<Entry>, x: Entry)
    ensures forall y :: multiset(l + [x])[y] == multiset(l)[y] + if y == x then 1 else 0
  {}

  lemma ReportedNext(root: BKNode, links: Links, trails: Trails, lists: Lists, q: nat, radius: nat,
                     visited: set<BKNode>,
                     found: seq<Entry>, n: BKNode)
    requires Shaped(root, links, trails) && lists.Keys == links.Keys && n in lists && n !in visited
    requires Reported(lists, q, radius, visited, found)
    ensures Reported(lists, q, radius, visited + {n},
                     if Dist(n.hash, q) <= radius then found + EntriesOf(n.hash, lists[n]) else found)
  {
    hide Dist, Shaped, Trail, Children, EntriesOf;
    ShapedParts(root, links, trails);
    EntriesCount(n.hash, lists[n]);
  }

  lemma ReportedAll(links: Links, trails: Trails, lists: Lists, entries: multiset<Entry>, q: nat, radius: nat,
                    visited: set<BKNode>, out: seq<Hit>, found: seq<Entry>)
    requires lists.Keys == links.Keys && Filled(lists, entries) && Searching(links, trails, q, radius, visited, [])
    requires Reported(lists, q, radius, visited, found) && Hits(q, out, found)
    ensures ScannedAll(entries, q, radius, out, found)
  {
    hide Dist;
    forall e: Entry ensures multiset(found)[e] == if Dist(e.code, q) <= radius then entries[e] else 0 {
      if HasNode(lists, e.code) {
        var n :| n in lists && n.hash == e.code;
        assert Fits(lists, entries, n);
      } else {
        assert e !in entries && e !in found;
      }
    }
  }

  // ---------------------------------------------------------------- the tree

  class BKTree {
    var root: BKNode?
    var size: nat
    var nodesVisited: nat
    ghost var links: Links
    ghost var trails: Trails
    ghost var lists: Lists
    /** What was added and not removed. */
    ghost var entries: multiset<Entry>

    ghost predicate Valid()
      reads this, links.Keys
    {
      Mirrors(links, lists) && Shaped(root, links, trails) && Filled(lists, entries) && size == |entries|
    }

    constructor ()
      ensures Valid() && entries == multiset{} && links == map[]
    {
      root, size, nodesVisited, links, trails, lists, entries := null, 0, 0, map[], map[], map[], multiset{};
    }

    /** The node with this code, or else the one whose missing edge it would hang from. */
    method Descend(h: nat) returns (node: BKNode)
      requires Valid() && root != null
      ensures Ahead(links, trails, node, h) && (node.hash == h || Dist(node.hash, h) !in node.children)
    {
      hide Dist, Shaped, Ahead, Trail, Children, Towards, Filled, Plus, Minus;
      RootAhead(root, links, trails, h);
      node := root;
      AheadParts(links, trails, node, h);
      while true
        invariant Ahead(links, trails, node, h) && node in links && node in trails
        decreases links.Keys - Elements(trails[node])
      {
        var d := Dist(node.hash, h);
        DistZero(node.hash, h);
        if d == 0 || d !in node.children {
          break;
        }
        StepDown(root, links, trails, node, h);
        node := node.children[d];
        AheadParts(links, trails, node, h);
      }
    }

    method Add(h: nat, item: Id)
      requires Valid()
      modifies this, links.Keys
      ensures Valid() && fresh(links.Keys - old(links.Keys)) && entries == Plus(old(entries), Entry(h, item))
    {
      hide Dist, Shaped, Ahead, Trail, Children, Towards, Filled, Plus, Minus;
      if root == null {
        AddFirst(h, item);
        return;
      }
      var node := Descend(h);
      AheadParts(links, trails, node, h);
      DistZero(node.hash, h);
      if Dist(node.hash, h) == 0 {
        AddTo(node, item);
      } else {
        AddBelow(node, h, item);
      }
    }

    method AddFirst(h: nat, item: Id)
      requires Valid() && root == null
      modifies this
      ensures Valid() && fresh(links.Keys) && entries == Plus(old(entries), Entry(h, item))
    {
      hide Dist, Filled, Shaped, Plus;
      ShapedParts(root, links, trails);
      root := new BKNode(h, item);
      FilledNew(lists, entries, root, item);
      ShapedAlone(root);
      size, entries := size + 1, Plus(entries, Entry(h, item));
      links, trails, lists := map[root := map[]], map[root := [root]], map[root := [item]];
    }

    method SetIds(node: BKNode, ids: seq<Id>)
      requires Mirrors(links, lists) && node in links
      modifies this`lists, node`ids
      ensures Mirrors(links, lists) && lists == old(lists)[node := ids]
    {
      node.ids := ids;
      lists := lists[node := ids];
    }

    method AddTo(node: BKNode, item: Id)
      requires Valid() && node in links
      modifies this, node
      ensures Valid() && links == old(links) && entries == Plus(old(entries), Entry(node.hash, item))
    {
      hide Dist, Shaped, Filled, Plus, Minus, Mirrors;
      MirrorParts(links, lists);
      FilledMore(root, links, trails, lists, entries, node, item);
      SetIds(node, node.ids + [item]);
      size, entries := size + 1, Plus(entries, Entry(node.hash, item));
    }

    /** Hangs a new node from this one. */
    method Hang(node: BKNode, d: nat, child: BKNode, item: Id)
      requires Mirrors(links, lists) && node in links && child !in links && child.children == map[]
               && child.ids == [item] && node in trails
      modifies this`links, this`trails, this`lists, node`children
      ensures Mirrors(links, lists) && links == WithChild(old(links), node, d, child)
      ensures trails == old(trails)[child := old(trails)[node] + [child]] && lists == old(lists)[child := [item]]
    {
      hide WithChild, Mirrors;
      MirrorParts(links, lists);
      LinksWithChild(links, node, d, child);
      node.children := node.children[d := child];
      links := WithChild(links, node, d, child);
      trails := trails[child := trails[node] + [child]];
      lists := lists[child := [item]];
      forall n | n in links ensures links[n] == n.children && lists[n] == n.ids {
        assert n == child || n == node || links[n] == old(links)[n];
      }
      MirrorsMade(links, lists);
    }

    method AddBelow(node: BKNode, h: nat, item: Id)
      requires Valid() && root != null && Ahead(links, trails, node, h) && node in links
      requires node.hash != h && Dist(node.hash, h) !in node.children
      modifies this, node
      ensures Valid() && fresh(links.Keys - old(links.Keys)) && entries == Plus(old(entries), Entry(h, item))
    {
      hide Dist, Shaped, Ahead, Filled, Towards, Trail, Children, Plus, Minus, WithChild, Mirrors;
      MirrorParts(links, lists);
      AheadParts(links, trails, node, h);
      NoStepDown(root, links, trails, node, h);
      var child := new BKNode(h, item);
      Hung(root, links, trails, node, child);
      FilledNew(lists, entries, child, item);
      LinksWithChild(links, node, Dist(node.hash, h), child);
      Hang(node, Dist(node.hash, h), child, item);
      size, entries := size + 1, Plus(entries, Entry(h, item));
    }

    /** Drops one entry, if there; the node stays. */
    method Remove(h: nat, item: Id) returns (removed: bool)
      requires Valid()
      modifies this, links.Keys
      ensures Valid() && links == old(links) && (removed <==> Entry(h, item) in old(entries))
      ensures entries == if removed then Minus(old(entries), Entry(h, item)) else old(entries)
    {
      hide Dist, Shaped, Ahead, Trail, Children, Towards, Filled, Plus, Minus;
      ShapedParts(root, links, trails);
      HasEntry(lists, entries, h, item);
      if root == null {
        return false;
      }
      var node := Descend(h);
      AheadParts(links, trails, node, h);
      NoStepDown(root, links, trails, node, h);
      if node.hash != h || item !in node.ids {
        return false;
      }
      RemoveFrom(node, item);
      return true;
    }

    method RemoveFrom(node: BKNode, item: Id)
      requires Valid() && node in links && item in node.ids && Entry(node.hash, item) in entries
      modifies this, node
      ensures Valid() && links == old(links) && entries == Minus(old(entries), Entry(node.hash, item))
    {
      hide Dist, Shaped, Filled, Plus, Minus, Mirrors, Without;
      MirrorParts(links, lists);
      FilledLess(root, links, trails, lists, entries, node, item);
      SetIds(node, Without(node.ids, item));
      size, entries := size - 1, Minus(entries, Entry(node.hash, item));
    }

    /** The children of n to look into. */
    method Selected(n: BKNode, lo: int, hi: int) returns (pushed: seq<BKNode>)
      requires Valid() && n in links
      ensures Between(links, n, lo, hi, pushed)
    {
      hide Dist, Shaped, Trail, Children, Filled;
      ShapedParts(root, links, trails);
      pushed := [];
      var left := n.children.Keys;
      while left != {}
        invariant left <= n.children.Keys && Distinct(pushed)
        invariant forall c :: c in pushed ==>
                    exists e :: e in n.children && e !in left && lo <= e <= hi && n.children[e] == c
        invariant forall e :: e in n.children && e !in left && lo <= e <= hi ==> n.children[e] in pushed
        decreases |left|
      {
        var e :| e in left;
        var c := n.children[e];
        ChildIsNew(root, links, trails, n, e);
        forall f | f in n.children && n.children[f] == c ensures f == e {
          ChildIsNew(root, links, trails, n, f);
        }
        left := left - {e};
        assert c !in pushed;
        DistinctJoined(pushed, [c]);
        if lo <= e <= hi {
          pushed := pushed + [c];
        }
      }
    }

    /** Exactly what a scan over everything added and not removed finds. */
    method Search(q: nat, radius: nat) returns (out: seq<Hit>, ghost found: seq<Entry>)
      requires Valid()
      modifies this`nodesVisited
      ensures ScannedAll(entries, q, radius, out, found)
    {
      hide Dist, Shaped, Filled, Searching, Reported, Between, ScannedAll, EntriesOf;
      out, found := [], [];
      if root == null {
        NothingToFind(links, trails, lists, entries, q, radius);
        return;
      }
      var stack: seq<BKNode> := [root];
      var visited := 0;
      ghost var done: set<BKNode> := {};
      SearchStart(root, links, trails, q, radius);
      NothingReported(lists, q, radius);
      while stack != []
        invariant Searching(links, trails, q, radius, done, stack)
        invariant Reported(lists, q, radius, done, found) && Hits(q, out, found)
        decreases links.Keys - done
      {
        StackParts(links, trails, q, radius, done, stack);
        var node := stack[|stack| - 1];
        visited := visited + 1;
        var d := Dist(node.hash, q);
        ReportedNext(root, links, trails, lists, q, radius, done, found, node);
        if d <= radius {
          out := out + seq(|node.ids|, i requires 0 <= i < |node.ids| reads node => Hit(node.ids[i], d));
          found := found + EntriesOf(node.hash, lists[node]);
        }
        var pushed := Selected(node, d - radius, d + radius);
        SearchStep(root, links, trails, q, radius, done, stack, pushed);
        stack, done := stack[..|stack| - 1] + pushed, done + {node};
      }
      ReportedAll(links, trails, lists, entries, q, radius, done, out, found);
      nodesVisited := nodesVisited + visited;
    }
  }

  lemma StackParts(links: Links, trails: Trails, q: nat, radius: nat, visited: set<BKNode>, stack: seq<BKNode>)
    requires Searching(links, trails, q, radius, visited, stack) && stack != []
    ensures stack[|stack| - 1] in links && stack[|stack| - 1] !in visited && visited <= links.Keys
  {
    hide Dist;
  }

  lemma NothingReported(lists: Lists, q: nat, radius: nat)
    ensures Reported(lists, q, radius, {}, []) && Hits(q, [], [])
  {
    hide Dist;
  }

  lemma NothingToFind(links: Links, trails: Trails, lists: Lists, entries: multiset<Entry>, q: nat, radius: nat)
    requires Shaped(null, links, trails) && lists.Keys == links.Keys && Filled(lists, entries)
    ensures ScannedAll(entries, q, radius, [], [])
  {
    hide Dist;
    forall e: Entry ensures e !in entries {
      assert e in entries ==> HasNode(lists, e.code);
    }
  }

  lemma ShapedAlone(root: BKNode)
    ensures Shaped(root, map[root := map[]], map[root := [root]])
  {
    hide Dist;
  }

  lemma RootAhead(root: BKNode, links: Links, trails: Trails, h: nat)
    requires Shaped(root, links, trails)
    ensures Ahead(links, trails, root, h)
  {
    hide Dist, Children;
    forall m | m in links ensures Trail(root, links, trails, m, trails[m]) {}
    assert trails[root] == [root] by {
      assert Trail(root, links, trails, root, trails[root]);
      assert trails[trails[root][0]] == trails[root][..1];
    }
  }

  lemma AheadParts(links: Links, trails: Trails, n: BKNode, h: nat)
    requires Ahead(links, trails, n, h)
    ensures n in links && n in trails
  {}
}
