/** What the three passes of `cluster_sources` keep true of the partition. */
module DedupProgress {
  import opened DedupGraph
  import opened DedupPartition

  predicate FetchedBefore(f: Fingerprint, g: Fingerprint) {
    f.accessedAt < g.accessedAt || (f.accessedAt == g.accessedAt && f.sourceId <= g.sourceId)
  }

  /** The fingerprints of a run: one per source. */
  ghost predicate OnePerSource(fs: seq<Fingerprint>) {
    forall i, j :: 0 <= i < j < |fs| ==> fs[i].sourceId != fs[j].sourceId
  }

  predicate ListedAt(fs: seq<Fingerprint>, d: Catalog, pos: Positions, i: nat)
    requires i < |fs|
  {
    var x := fs[i].sourceId;
    x in d && d[x] == fs[i] && x in pos && pos[x] == i
  }

  predicate PlacedAt(fs: seq<Fingerprint>, pos: Positions, x: Id)
    requires x in pos
  {
    pos[x] < |fs| && fs[pos[x]].sourceId == x
  }

  /** `fs` lists exactly the sources of `d`, at the places `pos` says. */
  ghost predicate Lists(fs: seq<Fingerprint>, d: Catalog, pos: Positions) {
    && d.Keys == pos.Keys
    && (forall i {:trigger ListedAt(fs, d, pos, i)} :: 0 <= i < |fs| ==> ListedAt(fs, d, pos, i))
    && (forall x {:trigger PlacedAt(fs, pos, x)} :: x in pos ==> PlacedAt(fs, pos, x))
  }

  ghost predicate SoundAt(d: Catalog, level: nat, rep: map<Id, Id>, x: Id)
    requires x in rep
  {
    rep[x] in d && Component(d, level, rep[x]) == Component(d, level, x)
  }

  /** Sources with one root so far are in one component of the rules up to `level`. */
  ghost predicate Sound(d: Catalog, level: nat, rep: map<Id, Id>) {
    && rep.Keys == d.Keys
    && forall x {:trigger SoundAt(d, level, rep, x)} :: x in rep ==> SoundAt(d, level, rep, x)
  }

  /** Two sources have one root exactly when they are in one component. */
  ghost predicate SameRootIffJoined(d: Catalog, level: nat, rep: map<Id, Id>, x: Id, y: Id)
    requires x in rep && y in rep
  {
    rep[x] == rep[y] <==> Component(d, level, x) == Component(d, level, y)
  }

  /** The partition is exactly the components of the rules up to `level`. */
  ghost predicate Components(d: Catalog, level: nat, rep: map<Id, Id>) {
    && rep.Keys == d.Keys
    && forall x, y {:trigger SameRootIffJoined(d, level, rep, x, y)} :: x in d && y in d ==> SameRootIffJoined(d, level, rep, x, y)
  }

  /** Where a cluster pass stands: the forest `parent`, seen as a partition,
      is sound for `level`, and labels are bottlenecks against the stages past. */
  ghost predicate InProgress(d: Catalog, pos: Positions, level: nat, p: Partition, past: seq<map<Id, Id>>) {
    && d.Keys == pos.Keys
    && Canonical(p.rep, pos)
    && Sound(d, level, p.rep)
    && Bottleneck(p, past)
  }

  /** Sources the rules up to `level` match directly have one root. */
  ghost predicate AdjacentAgree(d: Catalog, level: nat, rep: map<Id, Id>)
    requires rep.Keys == d.Keys
  {
    forall x, y {:trigger Adjacent(d, level, x, y)} :: Adjacent(d, level, x, y) ==> rep[x] == rep[y]
  }

  lemma SoundMonotone(d: Catalog, level: nat, rep: map<Id, Id>)
    requires Sound(d, level, rep)
    ensures Sound(d, level + 1, rep)
  {
    forall x | x in rep ensures SoundAt(d, level + 1, rep, x) {
      assert SoundAt(d, level, rep, x);
      SameComponentMonotone(d, level, level + 1, rep[x], x);
    }
  }

  lemma RedirectedSound(d: Catalog, level: nat, rep: map<Id, Id>, keep: Id, drop: Id)
    requires Sound(d, level, rep) && keep in d
    requires Component(d, level, keep) == Component(d, level, drop)
    ensures Sound(d, level, Redirected(rep, keep, drop))
  {
    var q := Redirected(rep, keep, drop);
    forall x | x in q ensures SoundAt(d, level, q, x) {
      assert SoundAt(d, level, rep, x);
    }
  }

  lemma RedirectedCanonical(rep: map<Id, Id>, pos: Positions, keep: Id, drop: Id)
    requires Canonical(rep, pos) && keep in rep && drop in rep
    requires rep[keep] == keep && rep[drop] == drop && keep != drop && pos[keep] <= pos[drop]
    ensures Canonical(Redirected(rep, keep, drop), pos)
  {
    var q := Redirected(rep, keep, drop);
    forall x | x in q ensures Represented(q, pos, x) {
      assert Represented(rep, pos, x);
    }
  }

  lemma JoiningRootsStaysSound(d: Catalog, pos: Positions, level: nat, rep: map<Id, Id>, a: Id, b: Id)
    requires Canonical(rep, pos) && Sound(d, level, rep)
    requires a in rep && b in rep && rep[a] == a && rep[b] == b && a != b
    requires Component(d, level, a) == Component(d, level, b)
    ensures Canonical(Redirected(rep, Earlier(pos, a, b), Later(pos, a, b)), pos)
    ensures Sound(d, level, Redirected(rep, Earlier(pos, a, b), Later(pos, a, b)))
  {
    if pos[a] <= pos[b] {
      RedirectedCanonical(rep, pos, a, b);
      RedirectedSound(d, level, rep, a, b);
    } else {
      RedirectedCanonical(rep, pos, b, a);
      RedirectedSound(d, level, rep, b, a);
    }
  }

  lemma MergeStaysSound(d: Catalog, pos: Positions, level: nat, p: Partition, left: Id, right: Id, reason: Reason)
    requires Canonical(p.rep, pos) && Sound(d, level, p.rep)
    requires Adjacent(d, level, left, right)
    requires p.rep[left] in pos && p.rep[right] in pos
    ensures Canonical(Merged(p, pos, left, right, reason).rep, pos)
    ensures Sound(d, level, Merged(p, pos, left, right, reason).rep)
  {
    assert Represented(p.rep, pos, left) && Represented(p.rep, pos, right);
    if p.rep[left] != p.rep[right] {
      assert SoundAt(d, level, p.rep, left) && SoundAt(d, level, p.rep, right);
      AdjacentSameComponent(d, level, left, right);
      JoiningRootsStaysSound(d, pos, level, p.rep, p.rep[left], p.rep[right]);
    }
  }

  /** One merge of two matching sources keeps the pass's invariant. */
  lemma MergeStep(d: Catalog, pos: Positions, p: Partition, past: seq<map<Id, Id>>, left: Id, right: Id, reason: Reason)
    requires InProgress(d, pos, Level(reason), p, past) && |past| == Level(reason)
    requires Adjacent(d, Level(reason), left, right)
    ensures p.rep[left] in pos && p.rep[right] in pos
    ensures InProgress(d, pos, Level(reason), Merged(p, pos, left, right, reason), past)
    ensures Refines(p.rep, Merged(p, pos, left, right, reason).rep)
    ensures Merged(p, pos, left, right, reason).rep[left] == Merged(p, pos, left, right, reason).rep[right]
  {
    assert Represented(p.rep, pos, left) && Represented(p.rep, pos, right);
    MergedSame(p, pos, left, right, reason);
    MergedBottleneck(p, pos, past, left, right, reason);
    MergeStaysSound(d, pos, Level(reason), p, left, right, reason);
  }

  /** A partition that is sound and that matching sources agree on is exactly
      the components. */
  lemma AgreementGivesComponents(d: Catalog, level: nat, rep: map<Id, Id>)
    requires Sound(d, level, rep) && AdjacentAgree(d, level, rep)
    ensures Components(d, level, rep)
  {
    forall x, y | x in d && y in d ensures SameRootIffJoined(d, level, rep, x, y) {
      assert SoundAt(d, level, rep, x) && SoundAt(d, level, rep, y);
      if Component(d, level, x) == Component(d, level, y) {
        JoinedIffSameComponent(d, level, x, y);
        var path :| IsPath(d, level, path) && path[0] == x && path[|path| - 1] == y;
        JoinedAgree(d, level, rep, path);
      }
    }
  }

  /** The stages before `level` are the components of their levels. */
  ghost predicate Stages(d: Catalog, level: nat, past: seq<map<Id, Id>>) {
    |past| == level && forall j {:trigger past[j]} :: 0 <= j < level ==> Components(d, j, past[j])
  }

  /** A finished pass: the components of `level`, ready for the next rule. */
  ghost predicate PassDone(d: Catalog, pos: Positions, level: nat, p: Partition, past: seq<map<Id, Id>>) {
    && InProgress(d, pos, level, p, past)
    && Stages(d, level + 1, past)
    && past[level] == p.rep
  }

  lemma FinishPass(d: Catalog, pos: Positions, level: nat, p: Partition, past: seq<map<Id, Id>>)
    requires InProgress(d, pos, level, p, past) && Stages(d, level, past)
    requires AdjacentAgree(d, level, p.rep)
    ensures PassDone(d, pos, level, p, past + [p.rep])
  {
    AgreementGivesComponents(d, level, p.rep);
    StageComplete(p, past);
    var now := past + [p.rep];
    forall j | 0 <= j <= level ensures Components(d, j, now[j]) {
      assert j < level ==> now[j] == past[j];
    }
  }

  /** Before any rule has run, every source is its own component. */
  lemma StartPass(d: Catalog, pos: Positions, p: Partition)
    requires d.Keys == pos.Keys == p.rep.Keys && p.labels == map[]
    requires forall x :: x in p.rep ==> p.rep[x] == x
    ensures PassDone(d, pos, 0, p, [p.rep])
  {
    forall x | x in p.rep ensures Represented(p.rep, pos, x) && SoundAt(d, 0, p.rep, x) {
    }
    assert Bottleneck(p, []);
    assert forall x, y :: !Adjacent(d, 0, x, y);
    FinishPass(d, pos, 0, p, []);
    assert [] + [p.rep] == [p.rep];
  }

  /** The next rule starts from what the last one left. */
  lemma NextPass(d: Catalog, pos: Positions, level: nat, p: Partition, past: seq<map<Id, Id>>)
    requires PassDone(d, pos, level, p, past)
    ensures InProgress(d, pos, level + 1, p, past)
  {
    SoundMonotone(d, level, p.rep);
  }
}
