/** The client's side of a synchronisation, and what repeating it leads to. */
module SyncPlanner {
  import opened LinearAlgebra
  import opened HexDigits
  import opened MerkleTrie
  import opened Merkle
  import opened SyncManager
  import opened Sequences

  datatype Mode = UpToDate | Walk | Bulk
  datatype SyncPlan = SyncPlan(needUpload: seq<string>, processing: seq<string>, linked: nat, removed: nat, mode: Mode)

  function Max(a: nat, b: nat): nat {
    if a < b then b else a
  }

  function Gap(a: nat, b: nat): nat {
    if a < b then b - a else a - b
  }

  /** The difference in size is a large part of the library: send the whole list. */
  predicate Bulky(localCount: nat, serverCount: nat, threshold: real) {
    serverCount == 0 || Gap(localCount, serverCount) as real > threshold * Max(localCount, 1) as real
  }

  // ---------------------------------------------------------------- what one synchronisation does

  /** With library l on the phone, manifest s at the server and contents k known there. */
  function ModeOf(l: set<string>, s: set<string>, threshold: real): Mode {
    if l == s then UpToDate else if Bulky(|l|, |s|, threshold) then Bulk else Walk
  }

  /** Where the two sides differ, the whole list is sent exactly if the server has nothing or one side, whichever it
      is, has more than the threshold's share of the phone's library over the other. */
  lemma ModeMeans(l: set<string>, s: set<string>, threshold: real)
    requires l != s
    ensures s == {} ==> ModeOf(l, s, threshold) == Bulk
    ensures s != {} && |l| > |s| ==>
              ModeOf(l, s, threshold) == if (|l| - |s|) as real > threshold * |l| as real then Bulk else Walk
    ensures s != {} && |l| <= |s| ==>
              ModeOf(l, s, threshold)
              == if (|s| - |l|) as real > threshold * (if l == {} then 1 else |l|) as real then Bulk else Walk
  {}

  function After(l: set<string>, s: set<string>, k: set<string>, threshold: real): set<string> {
    match ModeOf(l, s, threshold)
    case UpToDate => s
    case Bulk => s + l * k
    case Walk => l * (s + k)
  }

  /** The names that the client has to upload or wait for. */
  function Left(l: set<string>, s: set<string>, k: set<string>, threshold: real): set<string> {
    match ModeOf(l, s, threshold)
    case UpToDate => {}
    case Bulk => l - k
    case Walk => l - s - k
  }

  // ---------------------------------------------------------------- the plan

  /** What the client has and the server lacks, or the other way round, as far as the walk tells. */
  method Differences(local: MerkleTree, remote: MerkleTree) returns (missing: set<string>, extra: set<string>)
    requires local.Valid() && remote.Valid() && local != remote && local.sha == remote.sha
    requires Node(local.sha, local.members, "") != Node(local.sha, remote.members, "")
    modifies local`cache, remote`cache
    ensures local.Valid() && remote.Valid()
    ensures missing <= Names(local.members) - Names(remote.members)
    ensures extra <= Names(remote.members) - Names(local.members)
    ensures NoCollisions(local.sha, local.members, remote.members)
            ==> missing == Names(local.members) - Names(remote.members)
                && extra == Names(remote.members) - Names(local.members)
  {
    hide *;
    local.ValidParts();
    remote.ValidParts();
    var leaves, _ := DifferingLeaves(local, remote);
    missing, extra := {}, {};
    if leaves != [] {
      missing, extra := DifferingMembers(local, remote, leaves);
    } else {
      FoundUnder(local.sha, local.members, remote.members, leaves);
      NoLeaves(local.members, remote.members, leaves);
      assert leaves == leaves[..0];
    }
    NamesMinus(local.members, remote.members);
    NamesMinus(remote.members, local.members);
    FoundIn(local.sha, local.members, remote.members);
    FoundIn(local.sha, remote.members, local.members);
    NamesFewer(Found(local.sha, local.members, remote.members), local.members - remote.members);
    NamesFewer(Found(local.sha, remote.members, local.members), remote.members - local.members);
    if NoCollisions(local.sha, local.members, remote.members) {
      FoundAll(local.sha, local.members, remote.members);
    }
  }

  lemma FoundIn(sha: Sha, a: set<Vec>, b: set<Vec>)
    requires Digests(a) && Digests(b)
    ensures Found(sha, a, b) <= a - b
  {}

  lemma NamesFewer(a: set<Vec>, b: set<Vec>)
    requires a <= b
    ensures Names(a) <= Names(b)
  {}

  /** The walk against the trie of a device. */
  method WalkDown(local: MerkleTree, device: DeviceId, server: SyncManager, remote: MerkleTree)
    returns (missing: set<string>, extra: set<string>)
    requires local.Valid() && server.Valid() && local !in server.Footprint() && device in server.trees
    requires remote == server.trees[device]
    requires local.sha == server.sha
    requires Node(local.sha, local.members, "") != Node(local.sha, remote.members, "")
    modifies local`cache, remote`cache
    ensures local.Valid() && server.Valid()
    ensures missing <= Names(local.members) - server.Manifest(device)
    ensures extra <= server.Manifest(device) - Names(local.members)
    ensures AllDigests(missing) && AllDigests(extra) && Digests(remote.members)
    ensures NoCollisions(local.sha, local.members, remote.members)
            ==> missing == Names(local.members) - server.Manifest(device)
                && extra == server.Manifest(device) - Names(local.members)
  {
    hide Names, AllDigests, Sized, InBuckets, Cached, Node, NoCollisions, Found;
    assert server.InStep(device);
    label asked:
    missing, extra := Differences(local, remote);
    server.OnlyCached@asked(remote);
    server.RowsAreDigests(device);
    RawOfNames(local.members);
    SomeDigests(Names(local.members), missing);
    SomeDigests(server.Manifest(device), extra);
  }

  /** The walk and what it leads to. */
  method PlanWalk(threshold: real, local: MerkleTree, device: DeviceId, server: SyncManager) returns (plan: SyncPlan)
    requires local.Valid() && server.Valid() && local.sha == server.sha && local !in server.Footprint()
    requires device in server.trees && !Bulky(|Names(local.members)|, |server.Manifest(device)|, threshold)
    requires Node(local.sha, local.members, "") != Node(local.sha, server.trees[device].members, "")
    requires Names(local.members) != server.Manifest(device)
    modifies local`cache, server, server.Footprint()
    ensures local.Valid() && server.Valid() && fresh(server.Footprint() - old(server.Footprint()))
            && server.Only(device)
    ensures Bounded(Names(local.members), old(server.Manifest(device)), server.files, server.Manifest(device))
    ensures Digests(local.members) && Digests(old(server.trees[device].members))
    ensures NoCollisions(local.sha, local.members, old(server.trees[device].members)) ==>
              Planned(Names(local.members), old(server.Manifest(device)), server.files, threshold,
                      server.Manifest(device), plan)
  {
    hide Names, AllDigests, Sized, Node, NoCollisions, Bulky, Elements, Planned, Bounded, Raw, Digests, IsDigest,
    MerkleTree.Valid, server.Valid;
    ghost var s, l := server.Manifest(device), Names(local.members);
    local.ValidParts();
    var missing, extra := WalkDown(local, device, server, server.trees[device]);
    DifferenceBounded(l, s, server.files, missing, extra);
    plan := SendDifference(missing, extra, device, server);
    if missing == l - s && extra == s - l {
      DifferencePlanned(l, s, server.files, server.jobs, threshold, plan);
    }
  }

  /** The whole list and what it leads to. */
  method PlanBulk(threshold: real, local: MerkleTree, device: DeviceId, server: SyncManager) returns (plan: SyncPlan)
    requires local.Valid() && server.Valid() && local !in server.Footprint() && device in server.trees
    requires Bulky(|Names(local.members)|, |server.Manifest(device)|, threshold)
    requires Names(local.members) != server.Manifest(device)
    modifies server, server.Footprint()
    ensures local.Valid() && server.Valid() && fresh(server.Footprint() - old(server.Footprint()))
            && server.Only(device)
    ensures Bounded(Names(local.members), old(server.Manifest(device)), server.files, server.Manifest(device))
    ensures Planned(Names(local.members), old(server.Manifest(device)), server.files, threshold,
                    server.Manifest(device), plan)
  {
    hide Names, AllDigests, Sized, InBuckets, Cached, Node, NoCollisions, Bulky, server.Shaped, server.InStep, Elements,
    Planned;
    ghost var s, l := server.Manifest(device), Names(local.members);
    RawOfNames(local.members);
    var all := local.AllHashes();
    plan := SendAll(all, device, server);
    AllPlanned(l, s, server.files, server.jobs, threshold, plan);
  }

  /** The comparison of the roots. */
  method Ask(local: MerkleTree, device: DeviceId, server: SyncManager) returns (same: bool, serverCount: nat)
    requires local.Valid() && server.Valid() && local.sha == server.sha && local !in server.Footprint()
    modifies local`cache, server`trees, server.Footprint()
    ensures local.Valid() && server.Valid() && fresh(server.Footprint() - old(server.Footprint()))
    ensures local !in server.Footprint() && device in server.trees && Digests(local.members)
    ensures serverCount == |server.Manifest(device)| && AllDigests(server.Manifest(device))
    ensures server.trees[device].members == Raw(server.Manifest(device))
    ensures same <==> Node(local.sha, local.members, "") == Node(local.sha, Raw(server.Manifest(device)), "")
    ensures Names(local.members) == server.Manifest(device) ==> same
    ensures same && NoCollisions(local.sha, local.members, Raw(server.Manifest(device)))
            ==> Names(local.members) == server.Manifest(device)
  {
    hide Names, AllDigests, Sized, Node, NoCollisions, Bulky, Elements, Planned, Bounded, Raw, Digests, IsDigest,
    MerkleTree.Valid, server.Valid;
    local.ValidParts();
    server.ValidParts(device);
    server.RowsAreDigests(device);
    var theirs;
    theirs, serverCount := server.SyncRoot(device);
    RawOfNames(server.trees[device].members);
    SameRoots(local.sha, local.members, server.trees[device].members);
    var mine := local.Root();
    server.ValidParts(device);
    server.RowsAreDigests(device);
    same := mine == theirs;
  }

  /** One synchronisation. Whatever the hash does, nothing that both sides have is lost, nothing is linked that the
      client lacks, and nothing is linked that the archive does not know; without collisions it is exactly After. */
  method Plan(threshold: real, local: MerkleTree, device: DeviceId, server: SyncManager) returns (plan: SyncPlan)
    requires local.Valid() && server.Valid() && local.sha == server.sha && local !in server.Footprint()
    modifies local`cache, server, server.Footprint()
    ensures local.Valid() && server.Valid() && fresh(server.Footprint() - old(server.Footprint()))
            && server.Only(device)
    ensures Digests(local.members) && AllDigests(old(server.Manifest(device)))
    ensures Bounded(Names(local.members), old(server.Manifest(device)), server.files, server.Manifest(device))
    ensures NoCollisions(local.sha, local.members, Raw(old(server.Manifest(device)))) ==>
              Planned(Names(local.members), old(server.Manifest(device)), server.files, threshold,
                      server.Manifest(device), plan)
  {
    hide Names, AllDigests, Sized, Node, NoCollisions, Bulky, Elements, Planned, Bounded, Raw, Digests, IsDigest,
    MerkleTree.Valid, server.Valid;
    ghost var s, l := server.Manifest(device), Names(local.members);
    var same, serverCount := Ask(local, device, server);
    NamesSize(local.members);
    if same {
      plan := SyncPlan([], [], 0, 0, UpToDate);
      BoundedSame(l, s, server.files);
      if l == s {
        NothingPlanned(s, server.files, threshold, plan);
      }
      return;
    }
    var localCount := local.Count();
    if Bulky(localCount, serverCount, threshold) {
      plan := PlanBulk(threshold, local, device, server);
    } else {
      plan := PlanWalk(threshold, local, device, server);
    }
  }

  lemma NothingPlanned(s: set<string>, k: set<string>, threshold: real, plan: SyncPlan)
    requires plan.mode == UpToDate && plan.needUpload == plan.processing == [] && plan.linked == plan.removed == 0
    ensures Planned(s, s, k, threshold, s, plan)
  {}

  lemma AllPlanned(l: set<string>, s: set<string>, k: set<string>, jobs: set<string>, threshold: real, plan: SyncPlan)
    requires plan.mode == Bulk && l != s && Bulky(|l|, |s|, threshold) && plan.linked == |l * k - s|
             && plan.removed == 0
    requires Elements(plan.needUpload) == l - k - jobs && Elements(plan.processing) == (l - k) * jobs
    ensures Planned(l, s, k, threshold, s + l * k, plan)
  {
    hide Elements, Bulky;
    Halves(l - k, jobs);
  }

  lemma BoundedSame(l: set<string>, s: set<string>, k: set<string>)
    ensures Bounded(l, s, k, s)
  {}

  lemma DifferenceBounded(l: set<string>, s: set<string>, k: set<string>, missing: set<string>, extra: set<string>)
    requires missing <= l - s && extra <= s - l
    ensures Bounded(l, s, k, s + missing * k - extra)
  {}

  lemma DifferencePlanned(l: set<string>, s: set<string>, k: set<string>, jobs: set<string>, threshold: real,
                          plan: SyncPlan)
    requires plan.mode == Walk && l != s && !Bulky(|l|, |s|, threshold)
    requires plan.linked == |(l - s) * k - s| && plan.removed == |s - l|
    requires Elements(plan.needUpload) == l - s - k - jobs && Elements(plan.processing) == (l - s - k) * jobs
    ensures Planned(l, s, k, threshold, s + (l - s) * k - (s - l), plan)
  {
    hide Elements, Bulky;
    Difference(l, s, k);
    Halves(l - s - k, jobs);
  }

  lemma Difference(l: set<string>, s: set<string>, k: set<string>)
    ensures s + (l - s) * k - (s - l) == l * (s + k) && (l - s) * k - s == l * k - s
  {}

  lemma Halves(s: set<string>, t: set<string>)
    ensures (s - t) + s * t == s && (s - t) !! s * t
  {}

  lemma SameRoots(sha: Sha, a: set<Vec>, b: set<Vec>)
    requires Sized(sha) && Digests(a) && Digests(b)
    ensures NoCollisions(sha, a, b) && Node(sha, a, "") == Node(sha, b, "") ==> Names(a) == Names(b)
    ensures Names(a) == Names(b) ==> Node(sha, a, "") == Node(sha, b, "")
  {
    hide Node, NoCollisions, Names;
    NamesApart(a, b);
    if NoCollisions(sha, a, b) && Node(sha, a, "") == Node(sha, b, "") {
      FoundNone(sha, a, b);
      FoundAll(sha, a, b);
    }
  }

  /** Nothing that both have is lost, and only what the client has and the archive knows is gained. */
  ghost predicate Bounded(l: set<string>, s: set<string>, k: set<string>, after: set<string>) {
    l * s <= after <= s + l * k
  }

  ghost predicate Planned(l: set<string>, s: set<string>, k: set<string>, threshold: real, after: set<string>,
                          plan: SyncPlan) {
    plan.mode == ModeOf(l, s, threshold) && after == After(l, s, k, threshold)
    && Elements(plan.needUpload) + Elements(plan.processing) == Left(l, s, k, threshold)
    && Elements(plan.needUpload) !! Elements(plan.processing)
    && plan.linked == (if plan.mode == UpToDate then 0 else |l * k - s|)
    && plan.removed == if plan.mode == Walk then |s - l| else 0
  }

  method SendAll(all: set<string>, device: DeviceId, server: SyncManager) returns (plan: SyncPlan)
    requires server.Valid() && AllDigests(all) && device in server.trees
    modifies server, server.Footprint()
    ensures server.Valid() && fresh(server.Footprint() - old(server.Footprint())) && server.Only(device)
    ensures server.Manifest(device) == old(server.Manifest(device)) + all * server.files && plan.mode == Bulk
    ensures Elements(plan.needUpload) == all - server.files - server.jobs
    ensures Elements(plan.processing) == (all - server.files) * server.jobs
    ensures plan.linked == |all * server.files - old(server.Manifest(device))| && plan.removed == 0
  {
    hide *;
    var names := SortedNames(all);
    AcceptableAll(names);
    Lowered(names);
    NoneLowered();
    var r := server.Reconcile(device, names, []);
    plan := SyncPlan(r.needUpload, r.processing, r.linked, 0, Bulk);
  }

  method SendDifference(missing: set<string>, extra: set<string>, device: DeviceId, server: SyncManager)
    returns (plan: SyncPlan)
    requires server.Valid() && AllDigests(missing) && AllDigests(extra) && device in server.trees
    modifies server, server.Footprint()
    ensures server.Valid() && fresh(server.Footprint() - old(server.Footprint())) && server.Only(device)
    ensures server.Manifest(device) == old(server.Manifest(device)) + missing * server.files - extra
            && plan.mode == Walk
    ensures Elements(plan.needUpload) == missing - server.files - server.jobs
    ensures Elements(plan.processing) == (missing - server.files) * server.jobs
    ensures plan.linked == |missing * server.files - old(server.Manifest(device))| && plan.removed == |extra|
  {
    hide *;
    var names, others := SortedNames(missing), SortedNames(extra);
    AcceptableAll(names);
    AcceptableAll(others);
    Lowered(names);
    Lowered(others);
    var r := server.Reconcile(device, names, others);
    plan := SyncPlan(r.needUpload, r.processing, r.linked, r.removed, Walk);
  }

  lemma AcceptableAll(l: seq<string>)
    requires AllDigests(Elements(l))
    ensures forall i :: 0 <= i < |l| ==> Acceptable(l[i])
  {
    hide IsDigest, Acceptable;
    forall i | 0 <= i < |l| ensures Acceptable(l[i]) {
      ElementIsDigest(l, i);
    }
  }

  lemma Lowered(l: seq<string>)
    requires AllDigests(Elements(l))
    ensures LowerAll(l) == Elements(l)
  {
    hide FromHex, Lower;
    forall h | h in l ensures Lower(h) == h {
      assert h in Elements(l);
    }
  }

  lemma NoneLowered()
    ensures LowerAll([]) == {}
  {}

  // ---------------------------------------------------------------- repeated synchronisation

  /** The manifest once what was left over has been uploaded, ingested and linked. */
  function Settled(l: set<string>, s: set<string>, threshold: real): set<string> {
    match ModeOf(l, s, threshold)
    case UpToDate => s
    case Bulk => s + l
    case Walk => l
  }

  /** Whatever the archive knew, the rest of the synchronisation makes up for. */
  lemma Settles(l: set<string>, s: set<string>, k: set<string>, threshold: real)
    ensures After(l, s, k, threshold) + Left(l, s, k, threshold) == Settled(l, s, threshold)
  {
    hide Bulky;
  }

  function Rounds(l: set<string>, s: set<string>, threshold: real, n: nat): set<string> {
    if n == 0 then s else Settled(l, Rounds(l, s, threshold, n - 1), threshold)
  }

  /** The list is sent and then sent again, although only names at the server are too many. */
  predicate Stuck(l: set<string>, s: set<string>, threshold: real) {
    !(s <= l) && Bulky(|l|, |s|, threshold) && Bulky(|l|, |s + l|, threshold)
  }

  /** From the second synchronisation on, the server's manifest is the client's library; but where the list is sent
      instead of the difference, names that the client dropped are never unlinked. */
  lemma {:induction false} RoundsConverge(l: set<string>, s: set<string>, threshold: real, n: nat)
    requires n >= 2
    ensures Rounds(l, s, threshold, n) == if Stuck(l, s, threshold) then s + l else l
    ensures Rounds(l, s, threshold, n) == l <==> !Stuck(l, s, threshold)
  {
    hide Bulky;
    if n == 2 {
      assert Rounds(l, s, threshold, 1) == Settled(l, s, threshold) by {
        assert Rounds(l, s, threshold, 0) == s;
      }
      assert s <= l ==> s + l == l;
    } else {
      RoundsConverge(l, s, threshold, n - 1);
    }
    if Stuck(l, s, threshold) {
      var x :| x in s && x !in l;
      assert x in s + l;
    }
  }

  /** A phone that deletes more than the threshold's share of a library the server has, keeps it there. */
  lemma {:induction false} DeletionsStay(l: set<string>, s: set<string>, threshold: real, n: nat)
    requires l < s && (|s| - |l|) as real > threshold * Max(|l|, 1) as real
    ensures Rounds(l, s, threshold, n) == s
  {
    assert s + l == s;
    StaysPut(l, s, threshold, n);
  }

  lemma {:induction false} StaysPut(l: set<string>, s: set<string>, threshold: real, n: nat)
    requires l < s && s + l == s && (|s| - |l|) as real > threshold * Max(|l|, 1) as real
    ensures Rounds(l, s, threshold, n) == s
  {
    if n > 0 {
      StaysPut(l, s, threshold, n - 1);
      Smaller(l, s);
    }
  }

  lemma Smaller(l: set<string>, s: set<string>)
    requires l < s
    ensures |l| < |s|
  {
    assert s == l + (s - l);
  }
}
