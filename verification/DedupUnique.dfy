/** There is one clustering of a run's sources: clustering them again, whatever
    order they arrive in, reproduces the same clusters. */
module DedupUnique {
  import opened Ordering
  import opened DedupGraph
  import opened DedupProgress
  import opened DedupClusters
  import Dedup

  ghost predicate Keyed(d: Catalog) {
    forall x :: x in d ==> d[x].sourceId == x
  }

  /** A list in fetch order is determined by its elements. */
  lemma {:induction false} FetchOrderUnique(d: Catalog, xs: seq<Id>, ys: seq<Id>)
    requires Keyed(d) && InFetchOrder(d, xs) && InFetchOrder(d, ys)
    requires forall x :: x in xs <==> x in ys
    ensures xs == ys
  {
    if xs == [] {
      Dedup.NothingInEmpty(ys);
    } else {
      assert xs[0] in ys;
      var j :| 0 <= j < |ys| && ys[j] == xs[0];
      assert ys[0] in xs;
      var i :| 0 <= i < |xs| && xs[i] == ys[0];
      assert i == 0;
      forall x ensures x in xs[1..] <==> x in ys[1..] {
        Rest(xs, x);
        Rest(ys, x);
      }
      assert InFetchOrder(d, xs[1..]) && InFetchOrder(d, ys[1..]);
      FetchOrderUnique(d, xs[1..], ys[1..]);
      assert xs == [xs[0]] + xs[1..] && ys == [ys[0]] + ys[1..];
    }
  }

  lemma Rest(xs: seq<Id>, x: Id)
    requires xs != [] && forall i, j :: 0 <= i < j < |xs| ==> xs[i] != xs[j]
    ensures x in xs[1..] <==> x in xs && x != xs[0]
  {
    assert xs == [xs[0]] + xs[1..];
    if x in xs[1..] {
      var k :| 0 <= k < |xs[1..]| && xs[1..][k] == x;
      assert xs[0] != xs[k + 1];
    }
  }

  /** Clusters that share a source are one cluster. */
  lemma SharedSourceSameCluster(d: Catalog, a: Cluster, b: Cluster, x: Id)
    requires Keyed(d) && Described(d, a) && Described(d, b)
    requires x in a.Members() && x in b.Members()
    ensures a == b
  {
    ComponentOfMember(d, a, x);
    ComponentOfMember(d, b, x);
    forall y ensures y in a.Members() <==> y in b.Members() {
      MemberIffInComponent(d, a, y);
      MemberIffInComponent(d, b, y);
    }
    FetchOrderUnique(d, a.Members(), b.Members());
    assert a.primary == a.Members()[0] && b.primary == b.Members()[0];
    assert a.duplicates == a.Members()[1..] && b.duplicates == b.Members()[1..];
  }

  lemma ComponentOfMember(d: Catalog, c: Cluster, x: Id)
    requires WellGrouped(d, c) && x in c.Members()
    ensures x in d && Component(d, 3, c.primary) == Component(d, 3, x)
  {
    assert x in (set y | y in c.Members());
    assert x in Component(d, 3, c.primary);
    JoinedIffSameComponent(d, 3, c.primary, x);
  }

  lemma MemberIffInComponent(d: Catalog, c: Cluster, y: Id)
    requires WellGrouped(d, c)
    ensures y in c.Members() <==> y in Component(d, 3, c.primary)
  {
    assert y in c.Members() <==> y in (set m | m in c.Members());
  }

  lemma ClusterInBoth(d: Catalog, a: seq<Cluster>, b: seq<Cluster>, c: Cluster)
    requires Keyed(d) && IsClustering(d, a) && IsClustering(d, b) && c in a
    ensures c in b
  {
    assert Described(d, c);
    assert Covered(b, c.primary);
    var c' :| c' in b && c.primary in c'.Members();
    assert Described(d, c');
    SharedSourceSameCluster(d, c, c', c.primary);
  }

  lemma PrimariesOf(cs: seq<Cluster>, x: Id)
    ensures x in Primaries(cs) <==> exists c :: c in cs && c.primary == x
  {
    if x in Primaries(cs) {
      var i :| 0 <= i < |cs| && Primaries(cs)[i] == x;
      assert cs[i] in cs;
    }
    if c :| c in cs && c.primary == x {
      var i :| 0 <= i < |cs| && cs[i] == c;
      assert Primaries(cs)[i] == x;
    }
  }

  /** There is only one clustering. */
  lemma ClusteringIsUnique(d: Catalog, a: seq<Cluster>, b: seq<Cluster>)
    requires Keyed(d) && IsClustering(d, a) && IsClustering(d, b)
    ensures a == b
  {
    forall x ensures x in Primaries(a) <==> x in Primaries(b) {
      PrimariesOf(a, x);
      PrimariesOf(b, x);
      if x in Primaries(a) {
        var c :| c in a && c.primary == x;
        ClusterInBoth(d, a, b, c);
      }
      if x in Primaries(b) {
        var c :| c in b && c.primary == x;
        ClusterInBoth(d, b, a, c);
      }
    }
    FetchOrderUnique(d, Primaries(a), Primaries(b));
    forall i | 0 <= i < |a| ensures a[i] == b[i] {
      assert Primaries(a)[i] == Primaries(b)[i];
      assert a[i] in a && b[i] in b && Described(d, a[i]) && Described(d, b[i]);
      SharedSourceSameCluster(d, a[i], b[i], a[i].primary);
    }
    assert |Primaries(a)| == |a| && |Primaries(b)| == |b|;
  }

  /** Each source is counted in exactly one cluster. */
  lemma EachSourceOnce(d: Catalog, clusters: seq<Cluster>, x: Id)
    requires Keyed(d) && IsClustering(d, clusters) && x in d
    ensures exists i :: 0 <= i < |clusters| && x in clusters[i].Members()
    ensures forall i, j :: 0 <= i < j < |clusters| ==> !(x in clusters[i].Members() && x in clusters[j].Members())
  {
    assert Covered(clusters, x);
    var c :| c in clusters && x in c.Members();
    var k :| 0 <= k < |clusters| && clusters[k] == c;
    forall i, j | 0 <= i < j < |clusters| && x in clusters[i].Members()
      ensures x !in clusters[j].Members()
    {
      assert Described(d, clusters[i]) && Described(d, clusters[j]);
      assert Primaries(clusters)[i] != Primaries(clusters)[j];
      if x in clusters[j].Members() {
        SharedSourceSameCluster(d, clusters[i], clusters[j], x);
      }
    }
  }

  /** Clustering the same sources, fetched into the list in another order,
      gives the same clusters. */
  method ClusterAgain(fs: seq<DedupGraph.Fingerprint>, gs: seq<DedupGraph.Fingerprint>) returns (a: seq<Cluster>,
                      b: seq<Cluster>)
    requires OnePerSource(fs) && OnePerSource(gs) && multiset(fs) == multiset(gs)
    ensures a == b
  {
    a := Dedup.ClusterSources(fs);
    b := Dedup.ClusterSources(gs);
    SameCatalog(fs, gs);
    ClusteringIsUnique(Dedup.CatalogOf(fs), a, b);
  }

  lemma SameCatalog(fs: seq<DedupGraph.Fingerprint>, gs: seq<DedupGraph.Fingerprint>)
    requires OnePerSource(fs) && OnePerSource(gs) && multiset(fs) == multiset(gs)
    ensures Dedup.CatalogOf(fs) == Dedup.CatalogOf(gs) && Keyed(Dedup.CatalogOf(fs))
  {
    SameMembers(fs, gs);
    Dedup.CatalogEntries(fs);
    Dedup.CatalogEntries(gs);
    var d, e := Dedup.CatalogOf(fs), Dedup.CatalogOf(gs);
    forall x | x in d ensures d[x].sourceId == x && x in e && e[x] == d[x] {
      assert Dedup.Entry(fs, d, x);
      assert Dedup.Entered(e, d[x]);
    }
    forall x | x in e ensures x in d {
      assert Dedup.Entry(gs, e, x);
      assert Dedup.Entered(d, e[x]);
    }
  }

  /** No source here was accessed before `x`, and of those accessed with it none
      has a lower id. */
  predicate Leads(d: Catalog, x: Id, others: seq<Id>) {
    forall y :: y in others ==>
      x in d && y in d && d[x].accessedAt <= d[y].accessedAt && (d[x].accessedAt == d[y].accessedAt ==> x <= y)
  }

  lemma InOrderLeads(d: Catalog, xs: seq<Id>, i: nat)
    requires Keyed(d) && InFetchOrder(d, xs) && i < |xs|
    ensures Leads(d, xs[i], xs[i + 1..])
  {
    forall y | y in xs[i + 1..]
      ensures xs[i] in d && y in d && d[xs[i]].accessedAt <= d[y].accessedAt
              && (d[xs[i]].accessedAt == d[y].accessedAt ==> xs[i] <= y)
    {
      var j :| 0 <= j < |xs[i + 1..]| && xs[i + 1..][j] == y;
      assert FetchedBefore(d[xs[i]], d[xs[i + 1 + j]]);
    }
  }

  /** A cluster is known by the source of it that was accessed first, its others
      follow in the order they were, and clusters come in the order of the
      sources they are known by. */
  lemma FirstAccessedLeads(d: Catalog, clusters: seq<Cluster>, i: nat, k: nat)
    requires Keyed(d) && IsClustering(d, clusters) && i < |clusters|
    ensures var c := clusters[i];
            && Leads(d, c.primary, c.duplicates) && Leads(d, c.primary, Primaries(clusters)[i + 1..])
            && (k < |c.duplicates| ==> Leads(d, c.duplicates[k], c.duplicates[k + 1..]))
  {
    var c := clusters[i];
    assert c in clusters && Described(d, c);
    var members := c.Members();
    assert members[0] == c.primary && members[1..] == c.duplicates;
    InOrderLeads(d, members, 0);
    InOrderLeads(d, Primaries(clusters), i);
    assert Primaries(clusters)[i] == c.primary;
    if k < |c.duplicates| {
      InOrderLeads(d, members, k + 1);
      assert members[k + 1] == c.duplicates[k] && members[k + 2..] == c.duplicates[k + 1..];
    }
  }
}
