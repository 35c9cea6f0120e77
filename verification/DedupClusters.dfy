/** What `cluster_sources` promises of its clusters, and how a finished
    partition is written out as them. */
module DedupClusters {
  import opened Wrappers
  import opened Ordering
  import opened DedupGraph
  import opened DedupPartition
  import opened DedupProgress

  datatype Cluster = Cluster(primary: Id, duplicates: seq<Id>, reason: Reason) {
    function Members(): seq<Id> {
      [primary] + duplicates
    }
  }

  // --- what a clustering is ------------------------------------------------------

  ghost predicate InFetchOrder(d: Catalog, xs: seq<Id>) {
    && (forall i :: 0 <= i < |xs| ==> xs[i] in d)
    && (forall i, j :: 0 <= i < j < |xs| ==> xs[i] != xs[j] && FetchedBefore(d[xs[i]], d[xs[j]]))
  }

  /** A cluster is one component of the graph of all three rules, listed from
      the source fetched first. */
  ghost predicate WellGrouped(d: Catalog, c: Cluster) {
    && c.primary in d
    && (set y | y in c.Members()) == Component(d, 3, c.primary)
    && InFetchOrder(d, c.Members())
  }

  /** The rules up to `level` alone hold the cluster together. */
  ghost predicate HeldTogether(d: Catalog, level: nat, c: Cluster) {
    forall y :: y in c.Members() ==> Joined(d, level, c.primary, y)
  }

  /** The label is the bottleneck: the weakest rule the cluster needs. */
  ghost predicate WellLabelled(d: Catalog, c: Cluster) {
    && (c.reason == ExactHash <==> HeldTogether(d, 1, c))
    && (c.reason == CanonicalUrl <==> HeldTogether(d, 2, c) && !HeldTogether(d, 1, c))
    && (c.reason == NearDuplicate <==> !HeldTogether(d, 2, c))
  }

  function Primaries(clusters: seq<Cluster>): seq<Id> {
    seq(|clusters|, i requires 0 <= i < |clusters| => clusters[i].primary)
  }

  ghost predicate Covered(clusters: seq<Cluster>, x: Id) {
    exists c :: c in clusters && x in c.Members()
  }

  ghost predicate Described(d: Catalog, c: Cluster) {
    WellGrouped(d, c) && WellLabelled(d, c)
  }

  ghost predicate IsClustering(d: Catalog, clusters: seq<Cluster>) {
    && (forall c {:trigger Described(d, c)} :: c in clusters ==> Described(d, c))
    && (forall x {:trigger Covered(clusters, x)} :: x in d ==> Covered(clusters, x))
    && InFetchOrder(d, Primaries(clusters))
  }

  // --- writing a partition out ---------------------------------------------------

  function Ids(fs: seq<Fingerprint>): seq<Id> {
    seq(|fs|, i requires 0 <= i < |fs| => fs[i].sourceId)
  }

  /** The sources with root `r`, in the order given. */
  function MembersOf(rep: map<Id, Id>, xs: seq<Id>, r: Id): seq<Id> {
    if xs == [] then []
    else
      var x := xs[|xs| - 1];
      MembersOf(rep, xs[..|xs| - 1], r) + if x in rep && rep[x] == r then [x] else []
  }

  /** The sources that are their own root, in the order given. */
  function HeadsOf(rep: map<Id, Id>, xs: seq<Id>): seq<Id> {
    if xs == [] then []
    else
      var x := xs[|xs| - 1];
      HeadsOf(rep, xs[..|xs| - 1]) + if x in rep && rep[x] == x then [x] else []
  }

  function Without(xs: seq<Id>, x: Id): seq<Id> {
    if xs == [] then [] else (if xs[0] == x then [] else [xs[0]]) + Without(xs[1..], x)
  }

  function ClusterAt(rep: map<Id, Id>, labels: Labels, xs: seq<Id>, root: Id): Cluster {
    var duplicates := Without(MembersOf(rep, xs, root), root);
    Cluster(root, duplicates, if duplicates == [] then ExactHash else Label(labels, root).GetOr(ExactHash))
  }

  lemma {:induction false} MembersSubsequence(rep: map<Id, Id>, xs: seq<Id>, r: Id)
    ensures forall y :: y in MembersOf(rep, xs, r) <==> y in xs && y in rep && rep[y] == r
  {
    if xs != [] {
      assert xs == xs[..|xs| - 1] + [xs[|xs| - 1]];
      MembersSubsequence(rep, xs[..|xs| - 1], r);
    }
  }

  lemma {:induction false} HeadsSubsequence(rep: map<Id, Id>, xs: seq<Id>)
    ensures forall y :: y in HeadsOf(rep, xs) <==> y in xs && y in rep && rep[y] == y
  {
    if xs != [] {
      assert xs == xs[..|xs| - 1] + [xs[|xs| - 1]];
      HeadsSubsequence(rep, xs[..|xs| - 1]);
    }
  }

  /** Sources whose places strictly increase. */
  ghost predicate Increasing(pos: Positions, xs: seq<Id>) {
    && (forall i :: 0 <= i < |xs| ==> xs[i] in pos)
    && (forall i, j :: 0 <= i < j < |xs| ==> pos[xs[i]] < pos[xs[j]])
  }

  lemma {:induction false} MembersIncrease(rep: map<Id, Id>, pos: Positions, xs: seq<Id>, r: Id)
    requires Increasing(pos, xs)
    ensures Increasing(pos, MembersOf(rep, xs, r))
  {
    if xs != [] {
      var rest := MembersOf(rep, xs[..|xs| - 1], r);
      MembersIncrease(rep, pos, xs[..|xs| - 1], r);
      MembersSubsequence(rep, xs[..|xs| - 1], r);
      forall i | 0 <= i < |rest| ensures pos[rest[i]] < pos[xs[|xs| - 1]] {
        assert rest[i] in rest;
        var k :| 0 <= k < |xs| - 1 && xs[k] == rest[i];
      }
    }
  }

  lemma {:induction false} HeadsIncrease(rep: map<Id, Id>, pos: Positions, xs: seq<Id>)
    requires Increasing(pos, xs)
    ensures Increasing(pos, HeadsOf(rep, xs))
  {
    if xs != [] {
      var rest := HeadsOf(rep, xs[..|xs| - 1]);
      HeadsIncrease(rep, pos, xs[..|xs| - 1]);
      HeadsSubsequence(rep, xs[..|xs| - 1]);
      forall i | 0 <= i < |rest| ensures pos[rest[i]] < pos[xs[|xs| - 1]] {
        assert rest[i] in rest;
        var k :| 0 <= k < |xs| - 1 && xs[k] == rest[i];
      }
    }
  }

  lemma WithoutAbsent(xs: seq<Id>, x: Id)
    requires x !in xs
    ensures Without(xs, x) == xs
  {
    if xs != [] {
      WithoutAbsent(xs[1..], x);
      assert xs == [xs[0]] + xs[1..];
    }
  }

  lemma RootComesFirst(rep: map<Id, Id>, pos: Positions, xs: seq<Id>, r: Id)
    requires Increasing(pos, xs) && Canonical(rep, pos) && r in xs && r in rep && rep[r] == r
    ensures var ms := MembersOf(rep, xs, r); ms != [] && ms[0] == r && Increasing(pos, ms)
  {
    var ms := MembersOf(rep, xs, r);
    MembersSubsequence(rep, xs, r);
    MembersIncrease(rep, pos, xs, r);
    forall i | 1 <= i < |ms| ensures pos[ms[0]] < pos[ms[i]] {
    }
    var k :| 0 <= k < |ms| && ms[k] == r;
    assert ms[0] in ms && Represented(rep, pos, ms[0]);
    assert k == 0;
  }

  /** The root is the first of its members, so the cluster lists exactly them. */
  lemma MembersAreClusterMembers(rep: map<Id, Id>, labels: Labels, pos: Positions, xs: seq<Id>, r: Id)
    requires Increasing(pos, xs) && Canonical(rep, pos) && r in xs && r in rep && rep[r] == r
    ensures ClusterAt(rep, labels, xs, r).Members() == MembersOf(rep, xs, r)
  {
    var ms := MembersOf(rep, xs, r);
    RootComesFirst(rep, pos, xs, r);
    forall i | 1 <= i < |ms| ensures ms[i] != r {
      assert pos[ms[0]] < pos[ms[i]];
    }
    WithoutAbsent(ms[1..], r);
    assert ms == [r] + ms[1..];
  }

  // --- a finished partition is a clustering -----------------------------------------

  lemma IdsIncrease(fs: seq<Fingerprint>, d: Catalog, pos: Positions)
    requires Lists(fs, d, pos)
    ensures Increasing(pos, Ids(fs))
    ensures forall x :: x in Ids(fs) <==> x in d
  {
    forall i | 0 <= i < |fs| ensures Ids(fs)[i] in pos && pos[Ids(fs)[i]] == i {
      assert ListedAt(fs, d, pos, i);
    }
    forall x | x in d ensures x in Ids(fs) {
      assert PlacedAt(fs, pos, x);
      assert Ids(fs)[pos[x]] == x;
    }
  }

  /** Later in the list is later in fetch order. */
  lemma IncreasingIsFetchOrder(fs: seq<Fingerprint>, d: Catalog, pos: Positions, xs: seq<Id>)
    requires Lists(fs, d, pos) && SortedBy(FetchedBefore, fs) && Increasing(pos, xs)
    ensures InFetchOrder(d, xs)
  {
    forall i, j | 0 <= i < j < |xs| ensures xs[i] != xs[j] && FetchedBefore(d[xs[i]], d[xs[j]]) {
      assert pos[xs[i]] < pos[xs[j]];
      assert PlacedAt(fs, pos, xs[i]) && PlacedAt(fs, pos, xs[j]);
      assert ListedAt(fs, d, pos, pos[xs[i]]) && ListedAt(fs, d, pos, pos[xs[j]]);
      assert FetchedBefore(fs[pos[xs[i]]], fs[pos[xs[j]]]);
    }
  }

  lemma RootMembersAreComponent(fs: seq<Fingerprint>, d: Catalog, pos: Positions, rep: map<Id, Id>, level: nat, r: Id)
    requires Lists(fs, d, pos) && Components(d, level, rep) && r in rep && rep[r] == r
    ensures (set y | y in MembersOf(rep, Ids(fs), r)) == Component(d, level, r)
  {
    IdsIncrease(fs, d, pos);
    MembersSubsequence(rep, Ids(fs), r);
    forall y | y in d ensures rep[y] == r <==> y in Component(d, level, r) {
      JoinedIffSameComponent(d, level, r, y);
      assert SameRootIffJoined(d, level, rep, r, y);
    }
  }

  lemma ClusterWellGrouped(fs: seq<Fingerprint>, d: Catalog, pos: Positions, p: Partition, r: Id)
    requires Lists(fs, d, pos) && SortedBy(FetchedBefore, fs) && Canonical(p.rep, pos) && Components(d, 3, p.rep)
    requires r in p.rep && p.rep[r] == r
    ensures ClusterAt(p.rep, p.labels, Ids(fs), r).Members() == MembersOf(p.rep, Ids(fs), r)
    ensures WellGrouped(d, ClusterAt(p.rep, p.labels, Ids(fs), r))
  {
    IdsIncrease(fs, d, pos);
    MembersAreClusterMembers(p.rep, p.labels, pos, Ids(fs), r);
    MembersIncrease(p.rep, pos, Ids(fs), r);
    IncreasingIsFetchOrder(fs, d, pos, MembersOf(p.rep, Ids(fs), r));
    RootMembersAreComponent(fs, d, pos, p.rep, 3, r);
  }

  /** A stage holds a root's members in one class exactly when its rules hold
      the cluster together. */
  lemma WholeIffHeldTogether(d: Catalog, level: nat, stage: map<Id, Id>, rep: map<Id, Id>, c: Cluster)
    requires Components(d, level, stage) && stage.Keys == rep.Keys && c.primary in rep
    requires forall y :: y in c.Members() <==> y in rep && rep[y] == c.primary
    ensures Whole(stage, rep, c.primary) <==> HeldTogether(d, level, c)
  {
    forall y | y in rep && rep[y] == c.primary
      ensures stage[y] == stage[c.primary] <==> Joined(d, level, c.primary, y)
    {
      JoinedIffSameComponent(d, level, c.primary, y);
      assert SameRootIffJoined(d, level, stage, c.primary, y);
    }
    if Whole(stage, rep, c.primary) {
      forall y | y in c.Members() ensures Joined(d, level, c.primary, y) {
        assert rep[y] == c.primary;
      }
    }
  }

  lemma NothingJoinedAtZero(d: Catalog, x: Id, y: Id)
    requires Joined(d, 0, x, y)
    ensures x == y
  {
    var p :| IsPath(d, 0, p) && p[0] == x && p[|p| - 1] == y;
    assert |p| > 1 ==> Adjacent(d, 0, p[0], p[1]);
  }

  lemma ClusterWellLabelled(d: Catalog, p: Partition, past: seq<map<Id, Id>>, c: Cluster)
    requires Stages(d, 4, past) && past[3] == p.rep && Bottleneck(p, past[..3])
    requires c.primary in p.rep && p.rep[c.primary] == c.primary
    requires forall y :: y in c.Members() <==> y in p.rep && p.rep[y] == c.primary
    requires c.primary !in c.duplicates
    requires c.reason == if c.duplicates == [] then ExactHash else Label(p.labels, c.primary).GetOr(ExactHash)
    ensures WellLabelled(d, c)
  {
    var stages := past[..3];
    forall j | 0 <= j < 3
      ensures LabelLevel(p.labels, c.primary) <= j <==> HeldTogether(d, j, c)
    {
      assert stages[j] == past[j];
      assert LabelsBottleneck(p, stages[j], j);
      assert LabelledAt(p, past[j], j, c.primary);
      WholeIffHeldTogether(d, j, past[j], p.rep, c);
    }
    assert LabelLevel(p.labels, c.primary) <= 3;
    if c.duplicates == [] {
      JoinedReflexive(d, 1, c.primary);
      JoinedReflexive(d, 2, c.primary);
    } else {
      var y := c.duplicates[0];
      assert y in c.Members();
      if HeldTogether(d, 0, c) {
        NothingJoinedAtZero(d, c.primary, y);
      }
    }
  }

  /** Every source is in the cluster of its root. */
  lemma RootCovers(fs: seq<Fingerprint>, d: Catalog, pos: Positions, rep: map<Id, Id>, x: Id)
    requires Lists(fs, d, pos) && Canonical(rep, pos) && x in d
    ensures rep[x] in HeadsOf(rep, Ids(fs)) && x in MembersOf(rep, Ids(fs), rep[x])
  {
    IdsIncrease(fs, d, pos);
    assert Represented(rep, pos, x);
    HeadsSubsequence(rep, Ids(fs));
    MembersSubsequence(rep, Ids(fs), rep[x]);
  }

  function ClustersOf(rep: map<Id, Id>, labels: Labels, xs: seq<Id>, heads: seq<Id>): (cs: seq<Cluster>)
    ensures |cs| == |heads| && forall i :: 0 <= i < |heads| ==> cs[i] == ClusterAt(rep, labels, xs, heads[i])
  {
    seq(|heads|, i requires 0 <= i < |heads| => ClusterAt(rep, labels, xs, heads[i]))
  }

  /** A partition whose passes are all done. */
  ghost predicate Finished(fs: seq<Fingerprint>, d: Catalog, pos: Positions, p: Partition, past: seq<map<Id, Id>>) {
    && Lists(fs, d, pos) && SortedBy(FetchedBefore, fs) && Canonical(p.rep, pos)
    && Stages(d, 4, past) && past[3] == p.rep && Bottleneck(p, past[..3]) && Components(d, 3, p.rep)
  }

  function WrittenOut(p: Partition, fs: seq<Fingerprint>): seq<Cluster> {
    ClustersOf(p.rep, p.labels, Ids(fs), HeadsOf(p.rep, Ids(fs)))
  }

  lemma AllDescribed(fs: seq<Fingerprint>, d: Catalog, pos: Positions, p: Partition, past: seq<map<Id, Id>>)
    requires Finished(fs, d, pos, p, past)
    ensures forall c {:trigger Described(d, c)} :: c in WrittenOut(p, fs) ==> Described(d, c)
  {
    var clusters := WrittenOut(p, fs);
    forall c | c in clusters ensures Described(d, c) {
      var i :| 0 <= i < |clusters| && clusters[i] == c;
      ClusterDescribed(fs, d, pos, p, past, i);
    }
  }

  lemma AllCovered(fs: seq<Fingerprint>, d: Catalog, pos: Positions, p: Partition)
    requires Lists(fs, d, pos) && SortedBy(FetchedBefore, fs) && Canonical(p.rep, pos) && Components(d, 3, p.rep)
    ensures forall x {:trigger Covered(WrittenOut(p, fs), x)} :: x in d ==> Covered(WrittenOut(p, fs), x)
  {
    forall x | x in d ensures Covered(WrittenOut(p, fs), x) {
      var c := CoveringCluster(fs, d, pos, p, x);
    }
  }

  /** Written out, a finished partition is the clustering of the sources. */
  lemma FinishedIsClustering(fs: seq<Fingerprint>, d: Catalog, pos: Positions, p: Partition, past: seq<map<Id, Id>>)
    requires Finished(fs, d, pos, p, past)
    ensures IsClustering(d, WrittenOut(p, fs))
  {
    AllDescribed(fs, d, pos, p, past);
    AllCovered(fs, d, pos, p);
    HeadsInFetchOrder(fs, d, pos, p.rep);
    assert Primaries(WrittenOut(p, fs)) == HeadsOf(p.rep, Ids(fs));
  }

  lemma HeadsInFetchOrder(fs: seq<Fingerprint>, d: Catalog, pos: Positions, rep: map<Id, Id>)
    requires Lists(fs, d, pos) && SortedBy(FetchedBefore, fs)
    ensures InFetchOrder(d, HeadsOf(rep, Ids(fs)))
  {
    IdsIncrease(fs, d, pos);
    HeadsIncrease(rep, pos, Ids(fs));
    IncreasingIsFetchOrder(fs, d, pos, HeadsOf(rep, Ids(fs)));
  }

  lemma CoveringCluster(fs: seq<Fingerprint>, d: Catalog, pos: Positions, p: Partition, x: Id) returns (c: Cluster)
    requires Lists(fs, d, pos) && SortedBy(FetchedBefore, fs) && Canonical(p.rep, pos) && Components(d, 3, p.rep)
    requires x in d
    ensures c in WrittenOut(p, fs) && x in c.Members()
  {
    var heads := HeadsOf(p.rep, Ids(fs));
    RootCovers(fs, d, pos, p.rep, x);
    var i :| 0 <= i < |heads| && heads[i] == p.rep[x];
    HeadsSubsequence(p.rep, Ids(fs));
    ClusterWellGrouped(fs, d, pos, p, heads[i]);
    c := WrittenOut(p, fs)[i];
  }

  lemma ClusterDescribed(fs: seq<Fingerprint>, d: Catalog, pos: Positions, p: Partition, past: seq<map<Id, Id>>, i: nat)
    requires Finished(fs, d, pos, p, past)
    requires i < |HeadsOf(p.rep, Ids(fs))|
    ensures Described(d, WrittenOut(p, fs)[i])
  {
    var r := HeadsOf(p.rep, Ids(fs))[i];
    HeadsSubsequence(p.rep, Ids(fs));
    assert r in HeadsOf(p.rep, Ids(fs));
    var c := ClusterAt(p.rep, p.labels, Ids(fs), r);
    ClusterWellGrouped(fs, d, pos, p, r);
    IdsIncrease(fs, d, pos);
    MembersSubsequence(p.rep, Ids(fs), r);
    assert c.primary !in c.duplicates by {
      forall j | 0 <= j < |c.duplicates| ensures c.duplicates[j] != r {
        assert c.Members()[j + 1] == c.duplicates[j];
      }
    }
    ClusterWellLabelled(d, p, past, c);
  }
}
