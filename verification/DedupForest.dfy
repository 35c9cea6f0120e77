/** The nested functions `find` and `union` of `cluster_sources`, over the two
    dictionaries they update. */
module DedupForest {
  import opened Wrappers
  import opened DedupGraph
  import opened DedupPartition

  /** The forest, seen as a partition. */
  ghost function Partitioned(parent: Parents, pos: Positions, reasons: Labels): Partition
    requires Forest(parent, pos)
  {
    Partition(Roots(parent, pos), reasons)
  }

  /** The root above `node`, halving the path on the way up. The links move,
      the roots do not. */
  method Find(parent: Parents, pos: Positions, node: Id) returns (root: Id, halved: Parents)
    requires Forest(parent, pos) && node in parent
    ensures Forest(halved, pos) && Roots(halved, pos) == Roots(parent, pos)
    ensures root in parent && root == Root(parent, pos, node) && halved[root] == root
  {
    halved := parent;
    var current := node;
    while halved[current] != current
      invariant Forest(halved, pos) && current in halved && current in parent
      invariant Roots(halved, pos) == Roots(parent, pos)
      invariant Root(parent, pos, current) == Root(parent, pos, node)
      decreases pos[current]
    {
      assert LinkedBack(halved, pos, current);
      SameRootAbove(halved, parent, pos, current);
      HalvingKeepsRoots(halved, pos, current);
      halved := halved[current := halved[halved[current]]];
      assert LinkedBack(halved, pos, current);
      SameRootAbove(halved, parent, pos, current);
      current := halved[current];
    }
    root := current;
    RootsAt(halved, parent, pos, current);
  }

  /** Forests with the same roots agree on the root of a link's target. */
  lemma SameRootAbove(forest: Parents, parent: Parents, pos: Positions, x: Id)
    requires Forest(forest, pos) && Forest(parent, pos) && Roots(forest, pos) == Roots(parent, pos)
    requires x in forest && forest[x] in forest
    ensures forest[x] in parent && Root(parent, pos, forest[x]) == Root(parent, pos, x)
  {
    RootsAt(forest, parent, pos, x);
    RootsAt(forest, parent, pos, forest[x]);
  }

  lemma RootsAt(forest: Parents, parent: Parents, pos: Positions, x: Id)
    requires Forest(forest, pos) && Forest(parent, pos) && Roots(forest, pos) == Roots(parent, pos)
    requires x in forest
    ensures x in parent && Root(forest, pos, x) == Root(parent, pos, x)
  {
    assert Roots(forest, pos)[x] == Roots(parent, pos)[x];
  }

  /** Makes one component of two, labelled with the weakest rule either was made
      by or that makes this one. */
  method Union(parent: Parents, pos: Positions, reasons: Labels, left: Id, right: Id, reason: Reason)
    returns (linked: Parents, labels: Labels)
    requires Forest(parent, pos) && Injective(pos) && left in parent && right in parent
    ensures Forest(linked, pos)
    ensures Partitioned(linked, pos, labels)
         == Merged(Partitioned(parent, pos, reasons), pos, left, right, reason)
  {
    var a, b;
    labels := reasons;
    a, linked := Find(parent, pos, left);
    b, linked := Find(linked, pos, right);
    RootsTwice(parent, linked, pos, left, right, a, b);
    if a == b {
      return;
    }
    LinkingMerges(linked, pos, reasons, left, right, reason);
    var keep, drop := Earlier(pos, a, b), Later(pos, a, b);
    linked := linked[drop := keep];
    labels := labels[keep := Weaker(Weaker(Label(labels, keep), Label(labels, drop)), Some(reason)).GetOr(reason)];
  }

  lemma RootsTwice(parent: Parents, forest: Parents, pos: Positions, left: Id, right: Id, a: Id, b: Id)
    requires Forest(parent, pos) && Forest(forest, pos) && Roots(forest, pos) == Roots(parent, pos)
    requires left in parent && right in parent
    requires a == Root(parent, pos, left) && b == Root(forest, pos, right)
    ensures left in forest && right in forest
    ensures a == Root(forest, pos, left) && b == Root(parent, pos, right)
    ensures Partitioned(parent, pos, map[]).rep[left] == a && Partitioned(parent, pos, map[]).rep[right] == b
  {
    RootsAt(parent, forest, pos, left);
    RootsAt(parent, forest, pos, right);
  }
}
