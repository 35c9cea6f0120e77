/** The partition `cluster_sources` maintains, as a value: which root every
    source has, and which rule each root is labelled with. */
module DedupPartition {
  import opened DedupGraph
  import opened Wrappers

  type Parents = map<Id, Id>
  type Positions = map<Id, nat>
  type Labels = map<Id, Reason>

  predicate SamePlace(pos: Positions, x: Id, y: Id)
    requires x in pos && y in pos
  {
    pos[x] == pos[y]
  }

  ghost predicate Injective(pos: Positions) {
    forall x, y {:trigger SamePlace(pos, x, y)} :: x in pos && y in pos && SamePlace(pos, x, y) ==> x == y
  }

  /** A link leads to the source itself, or to one fetched earlier. */
  predicate LinkedBack(parent: Parents, pos: Positions, x: Id)
    requires x in parent && parent.Keys == pos.Keys
  {
    parent[x] in parent && (parent[x] != x ==> pos[parent[x]] < pos[x])
  }

  /** Every link leads back, so following links ends. */
  ghost predicate Forest(parent: Parents, pos: Positions) {
    && parent.Keys == pos.Keys
    && forall x {:trigger LinkedBack(parent, pos, x)} :: x in parent ==> LinkedBack(parent, pos, x)
  }

  function Root(parent: Parents, pos: Positions, x: Id): (r: Id)
    requires Forest(parent, pos) && x in parent
    ensures r in parent && parent[r] == r && pos[r] <= pos[x]
    decreases pos[x]
  {
    assert LinkedBack(parent, pos, x);
    if parent[x] == x then x else Root(parent, pos, parent[x])
  }

  function Roots(parent: Parents, pos: Positions): (rep: map<Id, Id>)
    requires Forest(parent, pos)
    ensures rep.Keys == parent.Keys == pos.Keys
  {
    map x | x in parent :: Root(parent, pos, x)
  }

  lemma HalvingKeepsForest(parent: Parents, pos: Positions, x: Id)
    requires Forest(parent, pos) && x in parent && parent[x] in parent
    ensures Forest(parent[x := parent[parent[x]]], pos)
  {
    var halved := parent[x := parent[parent[x]]];
    assert LinkedBack(parent, pos, x) && LinkedBack(parent, pos, parent[x]);
    assert halved.Keys == parent.Keys;
    forall y | y in halved ensures LinkedBack(halved, pos, y) {
      assert LinkedBack(parent, pos, y);
    }
  }

  /** Path halving moves one link up one step and changes no root. */
  lemma {:induction false} HalvingKeepsRoot(parent: Parents, pos: Positions, x: Id, y: Id)
    requires Forest(parent, pos) && x in parent && parent[x] in parent && y in parent
    requires Forest(parent[x := parent[parent[x]]], pos)
    ensures Root(parent[x := parent[parent[x]]], pos, y) == Root(parent, pos, y)
    decreases pos[y]
  {
    var halved := parent[x := parent[parent[x]]];
    assert LinkedBack(halved, pos, y) && LinkedBack(parent, pos, y);
    if halved[y] != y {
      HalvingKeepsRoot(parent, pos, x, halved[y]);
      if y == x { assert LinkedBack(parent, pos, parent[x]); }
    } else if y == x {
      assert LinkedBack(parent, pos, parent[x]);
    }
  }

  lemma HalvingKeepsRoots(parent: Parents, pos: Positions, x: Id)
    requires Forest(parent, pos) && x in parent && parent[x] in parent
    ensures Forest(parent[x := parent[parent[x]]], pos)
    ensures Roots(parent[x := parent[parent[x]]], pos) == Roots(parent, pos)
  {
    HalvingKeepsForest(parent, pos, x);
    forall y | y in parent
      ensures Root(parent[x := parent[parent[x]]], pos, y) == Root(parent, pos, y)
    {
      HalvingKeepsRoot(parent, pos, x, y);
    }
  }

  lemma LinkingKeepsForest(parent: Parents, pos: Positions, keep: Id, drop: Id)
    requires Forest(parent, pos) && keep in parent && drop in parent && pos[keep] < pos[drop]
    ensures Forest(parent[drop := keep], pos)
  {
    var linked := parent[drop := keep];
    assert linked.Keys == parent.Keys;
    forall y | y in linked ensures LinkedBack(linked, pos, y) {
      assert LinkedBack(parent, pos, y);
    }
  }

  /** Linking one root under another moves exactly its own component. */
  lemma {:induction false} LinkingMovesRoot(parent: Parents, pos: Positions, keep: Id, drop: Id, y: Id)
    requires Forest(parent, pos) && keep in parent && drop in parent && y in parent
    requires parent[keep] == keep && parent[drop] == drop && pos[keep] < pos[drop]
    requires Forest(parent[drop := keep], pos)
    ensures Root(parent[drop := keep], pos, y)
         == if Root(parent, pos, y) == drop then keep else Root(parent, pos, y)
    decreases pos[y]
  {
    var linked := parent[drop := keep];
    assert LinkedBack(parent, pos, y);
    if parent[y] != y {
      LinkingMovesRoot(parent, pos, keep, drop, parent[y]);
    } else if y == drop {
      assert linked[keep] == keep;
    }
  }

  /** The weaker of two rules, `None` being no rule at all. */
  function Weaker(left: Option<Reason>, right: Option<Reason>): Option<Reason> {
    if left.None? then right
    else if right.None? then left
    else if Level(left.value) > Level(right.value) then left else right
  }

  function Label(labels: Labels, x: Id): Option<Reason> {
    if x in labels then Some(labels[x]) else None
  }

  datatype Partition = Partition(rep: map<Id, Id>, labels: Labels)

  /** Of two roots, the one fetched first stays the root. */
  function Earlier(pos: Positions, a: Id, b: Id): Id
    requires a in pos && b in pos
  {
    if pos[a] <= pos[b] then a else b
  }

  function Later(pos: Positions, a: Id, b: Id): Id
    requires a in pos && b in pos
  {
    if pos[a] <= pos[b] then b else a
  }

  function Redirected(rep: map<Id, Id>, keep: Id, drop: Id): (r: map<Id, Id>)
    ensures r.Keys == rep.Keys
  {
    map x | x in rep :: if rep[x] == drop then keep else rep[x]
  }

  function Relabelled(labels: Labels, keep: Id, drop: Id, reason: Reason): Labels {
    labels[keep := Weaker(Weaker(Label(labels, keep), Label(labels, drop)), Some(reason)).GetOr(reason)]
  }

  /** What one `union(left, right, reason)` does to the partition. */
  function Merged(p: Partition, pos: Positions, left: Id, right: Id, reason: Reason): Partition
    requires left in p.rep && right in p.rep
    requires p.rep[left] in pos && p.rep[right] in pos
  {
    var a, b := p.rep[left], p.rep[right];
    if a == b then p
    else
      var keep, drop := Earlier(pos, a, b), Later(pos, a, b);
      Partition(Redirected(p.rep, keep, drop), Relabelled(p.labels, keep, drop, reason))
  }

  lemma LinkedRootAt(parent: Parents, pos: Positions, keep: Id, drop: Id, y: Id)
    requires Forest(parent, pos) && keep in parent && drop in parent && y in parent
    requires parent[keep] == keep && parent[drop] == drop && pos[keep] < pos[drop]
    requires Forest(parent[drop := keep], pos)
    ensures Roots(parent[drop := keep], pos)[y] == Redirected(Roots(parent, pos), keep, drop)[y]
  {
    LinkingMovesRoot(parent, pos, keep, drop, y);
  }

  lemma SameMap(a: map<Id, Id>, b: map<Id, Id>)
    requires a.Keys == b.Keys
    requires forall y :: y in a ==> a[y] == b[y]
    ensures a == b
  {
  }

  lemma LinkingRedirects(parent: Parents, pos: Positions, keep: Id, drop: Id)
    requires Forest(parent, pos) && keep in parent && drop in parent
    requires parent[keep] == keep && parent[drop] == drop && pos[keep] < pos[drop]
    ensures Forest(parent[drop := keep], pos)
    ensures Roots(parent[drop := keep], pos) == Redirected(Roots(parent, pos), keep, drop)
  {
    LinkingKeepsForest(parent, pos, keep, drop);
    var after, expected := Roots(parent[drop := keep], pos), Redirected(Roots(parent, pos), keep, drop);
    forall y | y in after ensures after[y] == expected[y] {
      LinkedRootAt(parent, pos, keep, drop, y);
    }
    SameMap(after, expected);
  }

  /** Linking the later root under the earlier one is a merge. */
  lemma LinkingMerges(parent: Parents, pos: Positions, labels: Labels, left: Id, right: Id, reason: Reason)
    requires Forest(parent, pos) && Injective(pos) && left in parent && right in parent
    requires Root(parent, pos, left) != Root(parent, pos, right)
    ensures var a, b := Root(parent, pos, left), Root(parent, pos, right);
            var keep, drop := Earlier(pos, a, b), Later(pos, a, b);
            && Forest(parent[drop := keep], pos)
            && Partition(Roots(parent[drop := keep], pos), Relabelled(labels, keep, drop, reason))
               == Merged(Partition(Roots(parent, pos), labels), pos, left, right, reason)
  {
    var a, b := Root(parent, pos, left), Root(parent, pos, right);
    assert !SamePlace(pos, a, b);
    LinkingRedirects(parent, pos, Earlier(pos, a, b), Later(pos, a, b));
  }

  /** A representative is its own, and the earliest of those it represents. */
  predicate Represented(rep: map<Id, Id>, pos: Positions, x: Id)
    requires x in rep && rep.Keys == pos.Keys
  {
    rep[x] in rep && rep[rep[x]] == rep[x] && pos[rep[x]] <= pos[x]
  }

  ghost predicate Canonical(rep: map<Id, Id>, pos: Positions) {
    && rep.Keys == pos.Keys
    && forall x {:trigger Represented(rep, pos, x)} :: x in rep ==> Represented(rep, pos, x)
  }

  /** The roots of a forest represent what they are roots of. */
  lemma RootsCanonical(parent: Parents, pos: Positions)
    requires Forest(parent, pos)
    ensures Canonical(Roots(parent, pos), pos)
  {
    var rep := Roots(parent, pos);
    forall x | x in rep ensures Represented(rep, pos, x) {
      var r := Root(parent, pos, x);
      assert Root(parent, pos, r) == r;
    }
  }

  /** Each old root answers for itself, and everything it represented. */
  lemma MergedSame(p: Partition, pos: Positions, left: Id, right: Id, reason: Reason)
    requires Canonical(p.rep, pos) && left in p.rep && right in p.rep
    requires p.rep[left] in pos && p.rep[right] in pos
    ensures var q := Merged(p, pos, left, right, reason); q.rep.Keys == p.rep.Keys && q.rep[left] == q.rep[right]
    ensures Refines(p.rep, Merged(p, pos, left, right, reason).rep)
  {
    var q := Merged(p, pos, left, right, reason);
    assert Represented(p.rep, pos, left) && Represented(p.rep, pos, right);
    forall x, y | x in p.rep && y in p.rep ensures StayTogether(p.rep, q.rep, x, y) {
    }
  }

  predicate StayTogether(fine: map<Id, Id>, coarse: map<Id, Id>, x: Id, y: Id)
    requires x in fine && y in fine && fine.Keys == coarse.Keys
  {
    fine[x] == fine[y] ==> coarse[x] == coarse[y]
  }

  /** What has one root in `fine` has one root in `coarse`. */
  ghost predicate Refines(fine: map<Id, Id>, coarse: map<Id, Id>) {
    && fine.Keys == coarse.Keys
    && forall x, y {:trigger StayTogether(fine, coarse, x, y)} :: x in fine && y in fine ==> StayTogether(fine, coarse, x, y)
  }

  /** Everything with root `r` now had one root at the earlier stage `past`. */
  ghost predicate Whole(past: map<Id, Id>, rep: map<Id, Id>, r: Id)
    requires past.Keys == rep.Keys && r in rep
  {
    forall y :: y in rep && rep[y] == r ==> past[y] == past[r]
  }

  function LabelLevel(labels: Labels, r: Id): nat {
    if r in labels then Level(labels[r]) else 0
  }

  /** The label of root `r` is at most `j` exactly when the rules up to level
      `j`, which left the partition `stage`, already held its component together. */
  ghost predicate LabelledAt(p: Partition, stage: map<Id, Id>, j: nat, r: Id)
    requires stage.Keys == p.rep.Keys && r in p.rep
  {
    LabelLevel(p.labels, r) <= j <==> Whole(stage, p.rep, r)
  }

  ghost predicate LabelsBottleneck(p: Partition, stage: map<Id, Id>, j: nat)
    requires stage.Keys == p.rep.Keys
  {
    forall r {:trigger LabelledAt(p, stage, j, r)} :: r in p.rep && p.rep[r] == r ==> LabelledAt(p, stage, j, r)
  }

  ghost predicate LabelsWithin(p: Partition, level: nat) {
    forall r {:trigger LabelLevel(p.labels, r)} :: r in p.rep && p.rep[r] == r ==> LabelLevel(p.labels, r) <= level
  }

  /** The labels are bottlenecks. `past[j]` is the partition the rules up to
      level `j` left behind. */
  ghost predicate Bottleneck(p: Partition, past: seq<map<Id, Id>>) {
    && LabelsWithin(p, |past|)
    && (forall j {:trigger past[j]} :: 0 <= j < |past| ==> Refines(past[j], p.rep) && LabelsBottleneck(p, past[j], j))
  }

  lemma RefinesTransitive(a: map<Id, Id>, b: map<Id, Id>, c: map<Id, Id>)
    requires Refines(a, b) && Refines(b, c)
    ensures Refines(a, c)
  {
    forall x, y | x in a && y in a ensures StayTogether(a, c, x, y) {
      assert StayTogether(a, b, x, y) && StayTogether(b, c, x, y);
    }
  }

  lemma RefinesReflexive(a: map<Id, Id>)
    ensures Refines(a, a)
  {
  }

  lemma WeakerLevel(labels: Labels, keep: Id, drop: Id, reason: Reason)
    requires LabelLevel(labels, keep) <= Level(reason) && LabelLevel(labels, drop) <= Level(reason)
    ensures LabelLevel(Relabelled(labels, keep, drop, reason), keep) == Level(reason)
  {
  }

  /** Of the merged component: no earlier stage held it together. */
  lemma JoinedIsNotWhole(past: map<Id, Id>, rep: map<Id, Id>, keep: Id, drop: Id)
    requires Refines(past, rep) && keep in rep && drop in rep
    requires rep[keep] == keep && rep[drop] == drop && keep != drop
    ensures !Whole(past, Redirected(rep, keep, drop), keep)
  {
    var q := Redirected(rep, keep, drop);
    assert q[drop] == keep;
    assert StayTogether(past, rep, drop, keep);
  }

  /** Of every other component: nothing changed. */
  lemma OthersKeepWhole(past: map<Id, Id>, rep: map<Id, Id>, keep: Id, drop: Id, r: Id)
    requires past.Keys == rep.Keys && r in rep && r != keep && r != drop && keep in rep
    requires rep[r] == r
    ensures Whole(past, Redirected(rep, keep, drop), r) <==> Whole(past, rep, r)
  {
    var q := Redirected(rep, keep, drop);
    forall y | y in rep ensures q[y] == r <==> rep[y] == r {
    }
  }

  lemma MergedLabels(p: Partition, keep: Id, drop: Id, reason: Reason, stage: map<Id, Id>, j: nat)
    requires keep in p.rep && drop in p.rep && p.rep[keep] == keep && p.rep[drop] == drop && keep != drop
    requires Refines(stage, p.rep) && LabelsBottleneck(p, stage, j) && j < Level(reason)
    requires LabelLevel(p.labels, keep) <= Level(reason) && LabelLevel(p.labels, drop) <= Level(reason)
    ensures LabelsBottleneck(Partition(Redirected(p.rep, keep, drop), Relabelled(p.labels, keep, drop, reason)), stage, j)
  {
    var q := Partition(Redirected(p.rep, keep, drop), Relabelled(p.labels, keep, drop, reason));
    WeakerLevel(p.labels, keep, drop, reason);
    forall r | r in q.rep && q.rep[r] == r ensures LabelledAt(q, stage, j, r) {
      if r == keep {
        JoinedIsNotWhole(stage, p.rep, keep, drop);
      } else {
        OthersKeepWhole(stage, p.rep, keep, drop, r);
        assert LabelledAt(p, stage, j, r);
      }
    }
  }

  /** A merge made by the rule of the current level keeps every label a
      bottleneck. */
  lemma MergedBottleneck(p: Partition, pos: Positions, past: seq<map<Id, Id>>, left: Id, right: Id, reason: Reason)
    requires Canonical(p.rep, pos) && left in p.rep && right in p.rep
    requires p.rep[left] in pos && p.rep[right] in pos
    requires Bottleneck(p, past) && |past| == Level(reason)
    ensures Bottleneck(Merged(p, pos, left, right, reason), past)
  {
    var q := Merged(p, pos, left, right, reason);
    var a, b := p.rep[left], p.rep[right];
    if a != b {
      var keep, drop := Earlier(pos, a, b), Later(pos, a, b);
      assert Represented(p.rep, pos, left) && Represented(p.rep, pos, right);
      assert LabelLevel(p.labels, keep) <= |past| && LabelLevel(p.labels, drop) <= |past|;
      WeakerLevel(p.labels, keep, drop, reason);
      MergedSame(p, pos, left, right, reason);
      forall r | r in q.rep && q.rep[r] == r ensures LabelLevel(q.labels, r) <= |past| {
        assert r != keep ==> p.rep[r] == r && LabelLevel(p.labels, r) <= |past|;
      }
      forall j | 0 <= j < |past| ensures Refines(past[j], q.rep) && LabelsBottleneck(q, past[j], j) {
        RefinesTransitive(past[j], p.rep, q.rep);
        MergedLabels(p, keep, drop, reason, past[j], j);
      }
    }
  }

  /** When a rule is exhausted, what it built becomes the next stage. */
  lemma StageComplete(p: Partition, past: seq<map<Id, Id>>)
    requires Bottleneck(p, past)
    ensures Bottleneck(p, past + [p.rep])
  {
    var now := past + [p.rep];
    assert LabelsBottleneck(p, p.rep, |past|) by {
      forall r | r in p.rep && p.rep[r] == r ensures LabelledAt(p, p.rep, |past|, r) {
        assert LabelLevel(p.labels, r) <= |past|;
      }
    }
    forall r | r in p.rep && p.rep[r] == r ensures LabelLevel(p.labels, r) <= |now| {
      assert LabelLevel(p.labels, r) <= |past|;
    }
    forall j | 0 <= j < |now| ensures Refines(now[j], p.rep) && LabelsBottleneck(p, now[j], j) {
      if j < |past| {
        assert now[j] == past[j];
      }
    }
  }
}
