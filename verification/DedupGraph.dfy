/** What it means for two sources to hold the same content: the graph that
    `evidence/dedup.py` never builds, and the components it has. */
module DedupGraph {

  /** A source id, represented by its place in the order of its string form. */
  type Id = nat

  const NEAR_DUPLICATE_TENTHS := 9
  const MIN_SHINGLES := 25
  const MAX_NEAR_DUPLICATE_CANDIDATES := 400

  /** `words` is the title and excerpt, case-folded and split on whitespace. */
  datatype Fingerprint = Fingerprint(
    sourceId: Id,
    canonicalUrl: string,
    contentHash: string,
    words: seq<string>,
    accessedAt: int)

  type Catalog = map<Id, Fingerprint>

  /** Strongest first. A rule's level is how far down this list it is. */
  datatype Reason = ExactHash | CanonicalUrl | NearDuplicate

  function Level(r: Reason): nat {
    match r
    case ExactHash => 1
    case CanonicalUrl => 2
    case NearDuplicate => 3
  }

  function ShingleAt(words: seq<string>, i: nat): seq<string>
    requires i + 3 <= |words|
  {
    words[i..i + 3]
  }

  function Shingles(words: seq<string>): set<seq<string>> {
    if |words| < 3 then {}
    else set i | 0 <= i <= |words| - 3 :: ShingleAt(words, i)
  }

  /** `_containment(left, right) >= 0.90`, over integers. */
  predicate Contained(left: set<seq<string>>, right: set<seq<string>>) {
    var smaller := if |left| <= |right| then |left| else |right|;
    smaller > 0 && 10 * |left * right| >= NEAR_DUPLICATE_TENTHS * smaller
  }

  predicate Comparable(f: Fingerprint) {
    |Shingles(f.words)| >= MIN_SHINGLES
  }

  predicate NearDuplicates(f: Fingerprint, g: Fingerprint) {
    Comparable(f) && Comparable(g) && Contained(Shingles(f.words), Shingles(g.words))
  }

  /** The shingles two texts share. */
  function Shared(f: Fingerprint, g: Fingerprint): set<seq<string>> {
    set x | x in Shingles(f.words) && x in Shingles(g.words)
  }

  /** A shingle is three words in a row. */
  lemma ShinglesAreTriples(words: seq<string>, x: seq<string>)
    ensures x in Shingles(words) <==>
              exists i :: 0 <= i && i + 3 <= |words| && x == [words[i], words[i + 1], words[i + 2]]
  {
    if x in Shingles(words) {
      var i :| 0 <= i <= |words| - 3 && x == ShingleAt(words, i);
      assert x == [words[i], words[i + 1], words[i + 2]];
    }
    if i :| 0 <= i && i + 3 <= |words| && x == [words[i], words[i + 1], words[i + 2]] {
      assert x == ShingleAt(words, i);
    }
  }

  /** Two texts are near duplicates exactly when each has at least 25 shingles
      and nine tenths of those of one of them are the other's too. */
  lemma NearDuplicatesShare(f: Fingerprint, g: Fingerprint)
    ensures NearDuplicates(f, g) <==>
              && |Shingles(f.words)| >= 25 && |Shingles(g.words)| >= 25
              && (10 * |Shared(f, g)| >= 9 * |Shingles(f.words)| || 10 * |Shared(f, g)| >= 9 * |Shingles(g.words)|)
  {
    assert Shared(f, g) == Shingles(f.words) * Shingles(g.words);
  }

  /** The rules up to `level` say that `x` and `y` hold the same content. */
  predicate Adjacent(d: Catalog, level: nat, x: Id, y: Id) {
    x in d && y in d &&
    ((level >= 1 && d[x].contentHash == d[y].contentHash) ||
     (level >= 2 && d[x].canonicalUrl == d[y].canonicalUrl) ||
     (level >= 3 && |d| <= MAX_NEAR_DUPLICATE_CANDIDATES && NearDuplicates(d[x], d[y])))
  }

  ghost predicate IsPath(d: Catalog, level: nat, p: seq<Id>) {
    p != [] && p[0] in d && forall i :: 0 <= i < |p| - 1 ==> Adjacent(d, level, p[i], p[i + 1])
  }

  /** `x` and `y` are in one component of the graph of the rules up to `level`. */
  ghost predicate Joined(d: Catalog, level: nat, x: Id, y: Id) {
    exists p :: IsPath(d, level, p) && p[0] == x && p[|p| - 1] == y
  }

  lemma AdjacentSymmetric(d: Catalog, level: nat, x: Id, y: Id)
    requires Adjacent(d, level, x, y)
    ensures Adjacent(d, level, y, x)
  {
    var a, b := Shingles(d[x].words), Shingles(d[y].words);
    assert a * b == b * a;
  }

  lemma JoinedReflexive(d: Catalog, level: nat, x: Id)
    requires x in d
    ensures Joined(d, level, x, x)
  {
    assert IsPath(d, level, [x]);
  }

  lemma AdjacentJoined(d: Catalog, level: nat, x: Id, y: Id)
    requires Adjacent(d, level, x, y)
    ensures Joined(d, level, x, y)
  {
    assert IsPath(d, level, [x, y]);
  }

  lemma JoinedTransitive(d: Catalog, level: nat, x: Id, y: Id, z: Id)
    requires Joined(d, level, x, y) && Joined(d, level, y, z)
    ensures Joined(d, level, x, z)
  {
    var p :| IsPath(d, level, p) && p[0] == x && p[|p| - 1] == y;
    var q :| IsPath(d, level, q) && q[0] == y && q[|q| - 1] == z;
    var r := p + q[1..];
    forall i | 0 <= i < |r| - 1 ensures Adjacent(d, level, r[i], r[i + 1]) {
      if i < |p| - 1 {
        assert r[i] == p[i] && r[i + 1] == p[i + 1];
      } else {
        var k := i - (|p| - 1);
        assert r[i] == q[k] && r[i + 1] == q[k + 1];
      }
    }
    assert IsPath(d, level, r);
    assert r[|r| - 1] == z;
  }

  lemma JoinedSymmetric(d: Catalog, level: nat, x: Id, y: Id)
    requires Joined(d, level, x, y)
    ensures Joined(d, level, y, x)
  {
    var p :| IsPath(d, level, p) && p[0] == x && p[|p| - 1] == y;
    var r := seq(|p|, i requires 0 <= i < |p| => p[|p| - 1 - i]);
    forall i | 0 <= i < |r| - 1 ensures Adjacent(d, level, r[i], r[i + 1]) {
      AdjacentSymmetric(d, level, p[|p| - 2 - i], p[|p| - 1 - i]);
    }
    assert r[0] in d by {
      if |p| > 1 { assert Adjacent(d, level, p[|p| - 2], p[|p| - 1]); }
    }
    assert IsPath(d, level, r);
  }

  /** The component of `x`: everything joined to it. */
  ghost function Component(d: Catalog, level: nat, x: Id): set<Id> {
    set y | y in d && Joined(d, level, x, y)
  }

  /** Two sources are joined exactly when they have the same component. */
  lemma JoinedIffSameComponent(d: Catalog, level: nat, x: Id, y: Id)
    requires x in d && y in d
    ensures Joined(d, level, x, y) <==> Component(d, level, x) == Component(d, level, y)
  {
    JoinedReflexive(d, level, y);
    assert y in Component(d, level, y);
    if Joined(d, level, x, y) {
      JoinedSymmetric(d, level, x, y);
      forall z | z in d ensures Joined(d, level, x, z) <==> Joined(d, level, y, z) {
        if Joined(d, level, x, z) { JoinedTransitive(d, level, y, x, z); }
        if Joined(d, level, y, z) { JoinedTransitive(d, level, x, y, z); }
      }
    }
  }

  lemma AdjacentSameComponent(d: Catalog, level: nat, x: Id, y: Id)
    requires Adjacent(d, level, x, y)
    ensures Component(d, level, x) == Component(d, level, y)
  {
    AdjacentJoined(d, level, x, y);
    JoinedIffSameComponent(d, level, x, y);
  }

  /** More rules join more sources. */
  lemma JoinedMonotone(d: Catalog, lower: nat, upper: nat, x: Id, y: Id)
    requires lower <= upper && Joined(d, lower, x, y)
    ensures Joined(d, upper, x, y)
  {
    var p :| IsPath(d, lower, p) && p[0] == x && p[|p| - 1] == y;
    assert IsPath(d, upper, p);
  }

  lemma SameComponentMonotone(d: Catalog, lower: nat, upper: nat, x: Id, y: Id)
    requires lower <= upper && x in d && y in d
    requires Component(d, lower, x) == Component(d, lower, y)
    ensures Component(d, upper, x) == Component(d, upper, y)
  {
    JoinedIffSameComponent(d, lower, x, y);
    JoinedMonotone(d, lower, upper, x, y);
    JoinedIffSameComponent(d, upper, x, y);
  }

  /** A labelling that adjacent sources agree on is agreed on by a component. */
  lemma {:induction false} JoinedAgree(d: Catalog, level: nat, rep: map<Id, Id>, p: seq<Id>)
    requires IsPath(d, level, p) && rep.Keys == d.Keys
    requires forall x, y :: Adjacent(d, level, x, y) ==> rep[x] == rep[y]
    ensures p[|p| - 1] in d && rep[p[0]] == rep[p[|p| - 1]]
  {
    if |p| > 1 {
      assert Adjacent(d, level, p[0], p[1]);
      JoinedAgree(d, level, rep, p[1..]);
    }
  }
}
