/** `evidence/dedup.py`: a run's sources, grouped into clusters of the same
    content, each counted once and labelled with the rule that holds it. */
module Dedup {
  import opened Wrappers
  import opened Ordering
  import opened DedupGraph
  import opened DedupPartition
  import opened DedupForest
  import opened DedupProgress
  import opened DedupPasses
  import opened DedupClusters

  // --- the run's sources, in fetch order -----------------------------------------

  lemma OnePerSourceIds(fs: seq<Fingerprint>, f: Fingerprint, g: Fingerprint)
    requires OnePerSource(fs) && f in fs && g in fs && f.sourceId == g.sourceId
    ensures f == g
  {
    var i :| 0 <= i < |fs| && fs[i] == f;
    var j :| 0 <= j < |fs| && fs[j] == g;
    assert i == j;
  }

  predicate Entry(fs: seq<Fingerprint>, d: Catalog, x: Id)
    requires x in d
  {
    d[x] in fs && d[x].sourceId == x
  }

  predicate Entered(d: Catalog, f: Fingerprint) {
    f.sourceId in d && d[f.sourceId] == f
  }

  /** The fingerprints by source id. */
  function CatalogOf(fs: seq<Fingerprint>): Catalog {
    if fs == [] then map[]
    else CatalogOf(fs[..|fs| - 1])[fs[|fs| - 1].sourceId := fs[|fs| - 1]]
  }

  lemma {:induction false} CatalogEntries(fs: seq<Fingerprint>)
    requires OnePerSource(fs)
    ensures forall x {:trigger Entry(fs, CatalogOf(fs), x)} :: x in CatalogOf(fs) ==> Entry(fs, CatalogOf(fs), x)
    ensures forall f {:trigger Entered(CatalogOf(fs), f)} :: f in fs ==> Entered(CatalogOf(fs), f)
    ensures |CatalogOf(fs)| == |fs|
  {
    if fs != [] {
      var init, last := fs[..|fs| - 1], fs[|fs| - 1];
      assert fs == init + [last];
      CatalogEntries(init);
      var rest := CatalogOf(init);
      forall x | x in rest ensures x != last.sourceId {
        assert Entry(init, rest, x);
        var i :| 0 <= i < |init| && init[i] == rest[x];
        assert fs[i].sourceId != fs[|fs| - 1].sourceId;
      }
      forall x | x in CatalogOf(fs) ensures Entry(fs, CatalogOf(fs), x) {
        assert x in rest ==> Entry(init, rest, x);
      }
      forall f | f in fs ensures Entered(CatalogOf(fs), f) {
        if f in init {
          assert Entered(rest, f);
        }
      }
    }
  }

  /** Where each source stands in fetch order. */
  function PlacesOf(fs: seq<Fingerprint>): (pos: Positions)
    requires OnePerSource(fs)
    ensures forall i :: 0 <= i < |fs| ==> fs[i].sourceId in pos && pos[fs[i].sourceId] == i
    ensures forall x :: x in pos ==> pos[x] < |fs| && fs[pos[x]].sourceId == x
  {
    if fs == [] then map[]
    else PlacesOf(fs[..|fs| - 1])[fs[|fs| - 1].sourceId := |fs| - 1]
  }

  lemma FetchOrderTotal()
    ensures TotalPreorder(FetchedBefore)
  {
  }

  lemma OrderedOnePerSource(fs: seq<Fingerprint>, ordered: seq<Fingerprint>)
    requires OnePerSource(fs) && multiset(ordered) == multiset(fs)
    ensures OnePerSource(ordered)
  {
    SameMembers(fs, ordered);
    assert NoDuplicates(fs);
    DistinctSameMultiset(fs, ordered);
    forall i, j | 0 <= i < j < |ordered| ensures ordered[i].sourceId != ordered[j].sourceId {
      assert ordered[i] in fs && ordered[j] in fs && ordered[i] != ordered[j];
      if ordered[i].sourceId == ordered[j].sourceId {
        OnePerSourceIds(fs, ordered[i], ordered[j]);
      }
    }
  }

  lemma OrderedListed(fs: seq<Fingerprint>, ordered: seq<Fingerprint>)
    requires OnePerSource(fs) && OnePerSource(ordered) && multiset(ordered) == multiset(fs)
    ensures Lists(ordered, CatalogOf(fs), PlacesOf(ordered))
    ensures Injective(PlacesOf(ordered))
    ensures |CatalogOf(fs)| == |ordered|
  {
    SameMembers(fs, ordered);
    CatalogEntries(fs);
    var d, pos := CatalogOf(fs), PlacesOf(ordered);
    forall i | 0 <= i < |ordered| ensures ListedAt(ordered, d, pos, i) {
      assert ordered[i] in fs && Entered(d, ordered[i]);
    }
    forall x | x in pos ensures PlacedAt(ordered, pos, x) && x in d {
      assert ListedAt(ordered, d, pos, pos[x]);
    }
    forall x | x in d ensures x in pos {
      assert Entry(fs, d, x);
      var i :| 0 <= i < |ordered| && ordered[i] == d[x];
    }
  }

  // --- grouping ------------------------------------------------------------------

  predicate GroupAt(rep: map<Id, Id>, xs: seq<Id>, groups: map<Id, seq<Id>>, r: Id)
    requires r in groups
  {
    groups[r] == MembersOf(rep, xs, r)
  }

  /** The dictionary `groups`: its keys in insertion order, and its values. */
  ghost predicate Grouped(rep: map<Id, Id>, xs: seq<Id>, roots: seq<Id>, groups: map<Id, seq<Id>>) {
    && roots == HeadsOf(rep, xs)
    && (forall r :: r in groups <==> r in roots)
    && (forall r {:trigger GroupAt(rep, xs, groups, r)} :: r in groups ==> GroupAt(rep, xs, groups, r))
  }

  lemma NothingInEmpty(xs: seq<Id>)
    requires forall y :: y !in xs
    ensures xs == []
  {
    if xs != [] {
      SomethingInNonempty(xs);
    }
  }

  lemma SomethingInNonempty(xs: seq<Id>)
    requires xs != []
    ensures exists y :: y in xs
  {
    assert xs[0] in xs;
  }

  /** A root is met before anything it represents. */
  lemma RootMetFirst(rep: map<Id, Id>, pos: Positions, xs: seq<Id>, i: nat)
    requires i < |xs| && Canonical(rep, pos) && xs[i] in rep
    requires forall k {:trigger xs[k]} :: 0 <= k < |xs| ==> xs[k] in pos && pos[xs[k]] == k
    requires forall x {:trigger pos[x]} :: x in pos ==> pos[x] < |xs| && xs[pos[x]] == x
    ensures rep[xs[i]] == xs[i] || rep[xs[i]] in HeadsOf(rep, xs[..i])
    ensures rep[xs[i]] == xs[i] ==> xs[i] !in HeadsOf(rep, xs[..i]) && MembersOf(rep, xs[..i], xs[i]) == []
  {
    var x := xs[i];
    assert Represented(rep, pos, x);
    HeadsSubsequence(rep, xs[..i]);
    MembersSubsequence(rep, xs[..i], x);
    if rep[x] != x {
      assert xs[..i][pos[rep[x]]] == rep[x];
    } else {
      forall y | y in xs[..i] && y in rep ensures rep[y] != x {
        assert Represented(rep, pos, y);
        var k :| 0 <= k < i && xs[k] == y;
      }
      NothingInEmpty(MembersOf(rep, xs[..i], x));
    }
  }

  lemma GroupTurn(rep: map<Id, Id>, pos: Positions, xs: seq<Id>, i: nat, roots: seq<Id>, groups: map<Id, seq<Id>>)
    requires i < |xs| && Canonical(rep, pos) && xs[i] in rep
    requires forall k {:trigger xs[k]} :: 0 <= k < |xs| ==> xs[k] in pos && pos[xs[k]] == k
    requires forall x {:trigger pos[x]} :: x in pos ==> pos[x] < |xs| && xs[pos[x]] == x
    requires Grouped(rep, xs[..i], roots, groups)
    ensures var r := rep[xs[i]];
            if r in groups then Grouped(rep, xs[..i + 1], roots, groups[r := groups[r] + [xs[i]]])
            else Grouped(rep, xs[..i + 1], roots + [r], groups[r := [xs[i]]])
  {
    var x, r := xs[i], rep[xs[i]];
    RootMetFirst(rep, pos, xs, i);
    var now := xs[..i + 1];
    assert now[..|now| - 1] == xs[..i] && now[|now| - 1] == x;
    var next := if r in groups then groups[r := groups[r] + [x]] else groups[r := [x]];
    forall q | q in next ensures GroupAt(rep, now, next, q) {
      if q in groups {
        assert GroupAt(rep, xs[..i], groups, q);
      }
    }
  }

  /** Sources by root, with the roots in the order their groups were begun. */
  method GroupByRoot(parent: Parents, pos: Positions, fs: seq<Fingerprint>, ghost d: Catalog)
    returns (roots: seq<Id>, groups: map<Id, seq<Id>>)
    requires Forest(parent, pos) && Lists(fs, d, pos)
    ensures Grouped(Roots(parent, pos), Ids(fs), roots, groups)
  {
    var forest := parent;
    ghost var rep := Roots(parent, pos);
    ghost var xs := Ids(fs);
    RootsCanonical(parent, pos);
    IdsPlaced(fs, d, pos);
    roots, groups := [], map[];
    for i := 0 to |fs|
      invariant Forest(forest, pos) && Roots(forest, pos) == rep
      invariant Grouped(rep, xs[..i], roots, groups)
    {
      var x := fs[i].sourceId;
      assert ListedAt(fs, d, pos, i);
      GroupTurn(rep, pos, xs, i, roots, groups);
      RootsAt(forest, parent, pos, x);
      var root;
      root, forest := Find(forest, pos, x);
      if root in groups {
        groups := groups[root := groups[root] + [x]];
      } else {
        roots, groups := roots + [root], groups[root := [x]];
      }
    }
    assert xs[..|fs|] == xs;
  }

  lemma IdsPlaced(fs: seq<Fingerprint>, d: Catalog, pos: Positions)
    requires Lists(fs, d, pos)
    ensures forall k {:trigger Ids(fs)[k]} :: 0 <= k < |Ids(fs)| ==> Ids(fs)[k] in pos && pos[Ids(fs)[k]] == k
    ensures forall x {:trigger pos[x]} :: x in pos ==> pos[x] < |Ids(fs)| && Ids(fs)[pos[x]] == x
  {
    forall k | 0 <= k < |Ids(fs)| ensures Ids(fs)[k] in pos && pos[Ids(fs)[k]] == k {
      assert ListedAt(fs, d, pos, k);
    }
    forall x | x in pos ensures pos[x] < |Ids(fs)| && Ids(fs)[pos[x]] == x {
      assert PlacedAt(fs, pos, x);
    }
  }

  /** The cluster a group becomes. */
  function FromGroup(members: seq<Id>, reasons: Labels, root: Id): Cluster {
    var duplicates := Without(members, root);
    Cluster(root, duplicates, if duplicates == [] then ExactHash else Label(reasons, root).GetOr(ExactHash))
  }

  /** One cluster per group. */
  method WriteClusters(roots: seq<Id>, groups: map<Id, seq<Id>>, reasons: Labels) returns (clusters: seq<Cluster>)
    requires forall r :: r in roots ==> r in groups
    ensures |clusters| == |roots|
    ensures forall k :: 0 <= k < |roots| ==> clusters[k] == FromGroup(groups[roots[k]], reasons, roots[k])
  {
    clusters := [];
    for i := 0 to |roots|
      invariant |clusters| == i
      invariant forall k :: 0 <= k < i ==> clusters[k] == FromGroup(groups[roots[k]], reasons, roots[k])
    {
      clusters := clusters + [FromGroup(groups[roots[i]], reasons, roots[i])];
    }
  }

  lemma GroupsWrittenOut(rep: map<Id, Id>, reasons: Labels, fs: seq<Fingerprint>, roots: seq<Id>,
                         groups: map<Id, seq<Id>>, clusters: seq<Cluster>)
    requires Grouped(rep, Ids(fs), roots, groups)
    requires |clusters| == |roots|
    requires forall k :: 0 <= k < |roots| ==> roots[k] in groups && clusters[k] == FromGroup(groups[roots[k]], reasons, roots[k])
    ensures clusters == WrittenOut(Partition(rep, reasons), fs)
  {
    forall k | 0 <= k < |roots| ensures clusters[k] == ClusterAt(rep, reasons, Ids(fs), roots[k]) {
      assert GroupAt(rep, Ids(fs), groups, roots[k]);
    }
  }

  function PlaceOf(pos: Positions, x: Id): nat {
    if x in pos then pos[x] else 0
  }

  function PlacedBefore(pos: Positions): (Cluster, Cluster) -> bool {
    (a: Cluster, b: Cluster) => PlaceOf(pos, a.primary) <= PlaceOf(pos, b.primary)
  }

  /** Groups are begun in fetch order of their roots, so the last sort of
      `cluster_sources` moves nothing. */
  lemma ClustersAlreadySorted(fs: seq<Fingerprint>, d: Catalog, pos: Positions, p: Partition)
    requires Lists(fs, d, pos)
    ensures Sort(PlacedBefore(pos), WrittenOut(p, fs)) == WrittenOut(p, fs)
  {
    IdsIncrease(fs, d, pos);
    HeadsIncrease(p.rep, pos, Ids(fs));
    SortKeepsSorted(PlacedBefore(pos), WrittenOut(p, fs));
  }

  // --- the whole ------------------------------------------------------------------

  method ClusterSources(fingerprints: seq<Fingerprint>) returns (clusters: seq<Cluster>)
    requires OnePerSource(fingerprints)
    ensures IsClustering(CatalogOf(fingerprints), clusters)
  {
    if fingerprints == [] {
      return [];
    }
    var ordered := Sort(FetchedBefore, fingerprints);
    FetchOrderTotal();
    SortSorts(FetchedBefore, fingerprints);
    OrderedOnePerSource(fingerprints, ordered);
    OrderedListed(fingerprints, ordered);
    clusters := ClusterOrdered(ordered, CatalogOf(fingerprints));
  }

  method ClusterOrdered(ordered: seq<Fingerprint>, ghost d: Catalog) returns (clusters: seq<Cluster>)
    requires OnePerSource(ordered) && SortedBy(FetchedBefore, ordered)
    requires Lists(ordered, d, PlacesOf(ordered)) && Injective(PlacesOf(ordered)) && |d| == |ordered|
    ensures IsClustering(d, clusters)
  {
    var position := PlacesOf(ordered);
    var parent, reasons, stages := LinkAll(position, ordered, d);
    clusters := WriteAll(parent, position, reasons, ordered, d, stages);
  }

  method LinkAll(position: Positions, ordered: seq<Fingerprint>, ghost d: Catalog)
    returns (parent: Parents, reasons: Labels, ghost stages: seq<map<Id, Id>>)
    requires Lists(ordered, d, position) && Injective(position) && |d| == |ordered|
    ensures AfterPass(parent, position, reasons, ordered, d, 3, stages)
  {
    parent := map x | x in position :: x;
    reasons := map[];
    stages := StartLinking(parent, position, ordered, d);
    parent, reasons, stages := LinkByKey(parent, position, reasons, ordered, ExactHash, d, stages);
    parent, reasons, stages := LinkByKey(parent, position, reasons, ordered, CanonicalUrl, d, stages);
    parent, reasons, stages := LinkNearDuplicates(parent, position, reasons, ordered, d, stages);
  }

  method WriteAll(parent: Parents, position: Positions, reasons: Labels, ordered: seq<Fingerprint>,
                  ghost d: Catalog, ghost stages: seq<map<Id, Id>>)
    returns (clusters: seq<Cluster>)
    requires SortedBy(FetchedBefore, ordered)
    requires AfterPass(parent, position, reasons, ordered, d, 3, stages)
    ensures IsClustering(d, clusters)
  {
    ghost var p := Partitioned(parent, position, reasons);
    FinishedPasses(ordered, d, position, p, stages);
    FinishedIsClustering(ordered, d, position, p, stages);
    ClustersAlreadySorted(ordered, d, position, p);
    var roots, groups := GroupByRoot(parent, position, ordered, d);
    clusters := WriteClusters(roots, groups, reasons);
    GroupsWrittenOut(p.rep, reasons, ordered, roots, groups, clusters);
    clusters := Sort(PlacedBefore(position), clusters);
  }

  lemma FinishedPasses(fs: seq<Fingerprint>, d: Catalog, pos: Positions, p: Partition, stages: seq<map<Id, Id>>)
    requires Lists(fs, d, pos) && SortedBy(FetchedBefore, fs) && PassDone(d, pos, 3, p, stages)
    ensures Finished(fs, d, pos, p, stages)
  {
    assert Components(d, 3, stages[3]);
    var early := stages[..3];
    assert LabelsWithin(p, 3);
    forall j | 0 <= j < 3 ensures Refines(early[j], p.rep) && LabelsBottleneck(p, early[j], j) {
      assert early[j] == stages[j];
    }
  }

  lemma StartLinking(parent: Parents, pos: Positions, fs: seq<Fingerprint>, d: Catalog)
    returns (stages: seq<map<Id, Id>>)
    requires Lists(fs, d, pos) && Injective(pos)
    requires parent == map x | x in pos :: x
    ensures AfterPass(parent, pos, map[], fs, d, 0, stages)
  {
    assert parent.Keys == pos.Keys;
    forall x | x in parent ensures LinkedBack(parent, pos, x) {
    }
    stages := [Roots(parent, pos)];
    StartPass(d, pos, Partitioned(parent, pos, map[]));
  }
}
