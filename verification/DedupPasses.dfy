/** The three linking passes of `cluster_sources`, strongest rule first. */
module DedupPasses {
  import opened Ordering
  import opened DedupGraph
  import opened DedupPartition
  import opened DedupForest
  import opened DedupProgress

  /** `union` of two sources the rule `reason` matches, within a pass. */
  method Link(parent: Parents, pos: Positions, reasons: Labels, left: Id, right: Id, reason: Reason,
              ghost d: Catalog, ghost past: seq<map<Id, Id>>)
    returns (linked: Parents, labels: Labels)
    requires Forest(parent, pos) && Injective(pos) && |past| == Level(reason)
    requires InProgress(d, pos, Level(reason), Partitioned(parent, pos, reasons), past)
    requires Adjacent(d, Level(reason), left, right)
    ensures Forest(linked, pos)
    ensures InProgress(d, pos, Level(reason), Partitioned(linked, pos, labels), past)
    ensures Refines(Roots(parent, pos), Roots(linked, pos))
    ensures Roots(linked, pos)[left] == Roots(linked, pos)[right]
  {
    MergeStep(d, pos, Partitioned(parent, pos, reasons), past, left, right, reason);
    linked, labels := Union(parent, pos, reasons, left, right, reason);
  }

  /** What a rule that looks sources up matches on. */
  function KeyOf(rule: Reason, f: Fingerprint): string {
    match rule
    case ExactHash => f.contentHash
    case CanonicalUrl => f.canonicalUrl
    case NearDuplicate => ""
  }

  predicate HolderAt(d: Catalog, first: map<string, Id>, rule: Reason, k: string)
    requires k in first
  {
    first[k] in d && KeyOf(rule, d[first[k]]) == k
  }

  predicate HeldAt(d: Catalog, rep: map<Id, Id>, first: map<string, Id>, rule: Reason, seen: seq<Fingerprint>, i: nat)
    requires i < |seen| && rep.Keys == d.Keys
  {
    var k := KeyOf(rule, seen[i]);
    seen[i].sourceId in d && k in first && first[k] in d && rep[first[k]] == rep[seen[i].sourceId]
  }

  /** Every source seen so far shares a root with the first holder of its key. */
  ghost predicate FirstHolders(d: Catalog, rep: map<Id, Id>, first: map<string, Id>, rule: Reason,
                               seen: seq<Fingerprint>)
    requires rep.Keys == d.Keys
  {
    && (forall k {:trigger HolderAt(d, first, rule, k)} :: k in first ==> HolderAt(d, first, rule, k))
    && (forall i {:trigger HeldAt(d, rep, first, rule, seen, i)} :: 0 <= i < |seen| ==> HeldAt(d, rep, first, rule, seen, i))
  }

  lemma HoldersSurvive(d: Catalog, rep: map<Id, Id>, next: map<Id, Id>, first: map<string, Id>, rule: Reason,
                       seen: seq<Fingerprint>)
    requires rep.Keys == d.Keys && Refines(rep, next)
    requires FirstHolders(d, rep, first, rule, seen)
    ensures FirstHolders(d, next, first, rule, seen)
  {
    forall i | 0 <= i < |seen| ensures HeldAt(d, next, first, rule, seen, i) {
      assert HeldAt(d, rep, first, rule, seen, i);
      assert StayTogether(rep, next, first[KeyOf(rule, seen[i])], seen[i].sourceId);
    }
  }

  lemma HolderAdded(d: Catalog, rep: map<Id, Id>, first: map<string, Id>, rule: Reason, seen: seq<Fingerprint>,
                    f: Fingerprint)
    requires rep.Keys == d.Keys && FirstHolders(d, rep, first, rule, seen)
    requires f.sourceId in d && d[f.sourceId] == f
    requires KeyOf(rule, f) in first ==> first[KeyOf(rule, f)] in d && rep[first[KeyOf(rule, f)]] == rep[f.sourceId]
    ensures FirstHolders(d, rep, if KeyOf(rule, f) in first then first else first[KeyOf(rule, f) := f.sourceId], rule, seen + [f])
  {
    var next := if KeyOf(rule, f) in first then first else first[KeyOf(rule, f) := f.sourceId];
    var all := seen + [f];
    forall k | k in next ensures HolderAt(d, next, rule, k) {
      assert k in first ==> HolderAt(d, first, rule, k);
    }
    forall i | 0 <= i < |all| ensures HeldAt(d, rep, next, rule, all, i) {
      if i < |seen| {
        assert all[i] == seen[i] && HeldAt(d, rep, first, rule, seen, i);
      }
    }
  }

  /** A pass that has looked at `n` of the sources, having started at `stage`. */
  ghost predicate Passing(fs: seq<Fingerprint>, d: Catalog, pos: Positions, reason: Reason, p: Partition,
                          past: seq<map<Id, Id>>,
                          stage: map<Id, Id>, first: map<string, Id>, n: nat)
    requires n <= |fs|
  {
    && Lists(fs, d, pos) && |past| == Level(reason)
    && InProgress(d, pos, Level(reason), p, past)
    && Refines(stage, p.rep)
    && FirstHolders(d, p.rep, first, reason, fs[..n])
  }

  lemma HolderTurn(d: Catalog, before: map<Id, Id>, after: map<Id, Id>, first: map<string, Id>, rule: Reason,
                   fs: seq<Fingerprint>, n: nat)
    requires n < |fs| && before.Keys == d.Keys && Refines(before, after)
    requires FirstHolders(d, before, first, rule, fs[..n])
    requires fs[n].sourceId in d && d[fs[n].sourceId] == fs[n]
    requires KeyOf(rule, fs[n]) in first ==> first[KeyOf(rule, fs[n])] in d && after[first[KeyOf(rule, fs[n])]] == after[fs[n].sourceId]
    ensures FirstHolders(d, after, if KeyOf(rule, fs[n]) in first then first else first[KeyOf(rule, fs[n]) := fs[n].sourceId], rule, fs[..n + 1])
  {
    HoldersSurvive(d, before, after, first, rule, fs[..n]);
    HolderAdded(d, after, first, rule, fs[..n], fs[n]);
    assert fs[..n + 1] == fs[..n] + [fs[n]];
  }

  predicate KeyAgrees(d: Catalog, rep: map<Id, Id>, rule: Reason, x: Id, y: Id)
    requires x in d && y in d && rep.Keys == d.Keys
  {
    KeyOf(rule, d[x]) == KeyOf(rule, d[y]) ==> rep[x] == rep[y]
  }

  ghost predicate KeysAgree(d: Catalog, rep: map<Id, Id>, rule: Reason)
    requires rep.Keys == d.Keys
  {
    forall x, y {:trigger KeyAgrees(d, rep, rule, x, y)} :: x in d && y in d ==> KeyAgrees(d, rep, rule, x, y)
  }

  lemma SameKeySameRoot(d: Catalog, pos: Positions, rep: map<Id, Id>, first: map<string, Id>, rule: Reason,
                        fs: seq<Fingerprint>)
    requires rep.Keys == d.Keys && Lists(fs, d, pos)
    requires FirstHolders(d, rep, first, rule, fs)
    ensures KeysAgree(d, rep, rule)
  {
    forall x, y | x in d && y in d ensures KeyAgrees(d, rep, rule, x, y) {
      assert PlacedAt(fs, pos, x) && PlacedAt(fs, pos, y);
      assert ListedAt(fs, d, pos, pos[x]) && ListedAt(fs, d, pos, pos[y]);
      assert HeldAt(d, rep, first, rule, fs, pos[x]) && HeldAt(d, rep, first, rule, fs, pos[y]);
    }
  }

  /** What an earlier rule joined directly stays joined under later rules. */
  lemma EarlierAgreementKept(d: Catalog, level: nat, stage: map<Id, Id>, rep: map<Id, Id>, past: seq<map<Id, Id>>)
    requires level < |past| && past[level] == stage
    requires Components(d, level, stage) && Refines(stage, rep)
    ensures forall x, y {:trigger Adjacent(d, level, x, y)} :: Adjacent(d, level, x, y) ==> rep[x] == rep[y]
  {
    forall x, y | Adjacent(d, level, x, y) ensures rep[x] == rep[y] {
      AdjacentSameComponent(d, level, x, y);
      assert SameRootIffJoined(d, level, stage, x, y);
      assert StayTogether(stage, rep, x, y);
    }
  }

  /** After a pass, sources the rule matches directly have one root. */
  lemma KeyPassAgreement(fs: seq<Fingerprint>, d: Catalog, pos: Positions, rep: map<Id, Id>, reason: Reason,
                         past: seq<map<Id, Id>>, first: map<string, Id>)
    requires rep.Keys == d.Keys && Lists(fs, d, pos) && reason != NearDuplicate
    requires Stages(d, Level(reason), past) && Refines(past[Level(reason) - 1], rep)
    requires FirstHolders(d, rep, first, reason, fs)
    ensures AdjacentAgree(d, Level(reason), rep)
  {
    SameKeySameRoot(d, pos, rep, first, reason, fs);
    EarlierAgreementKept(d, Level(reason) - 1, past[Level(reason) - 1], rep, past);
    forall x, y | Adjacent(d, Level(reason), x, y) ensures rep[x] == rep[y] {
      assert KeyAgrees(d, rep, reason, x, y);
      assert KeyOf(reason, d[x]) == KeyOf(reason, d[y]) || Adjacent(d, Level(reason) - 1, x, y);
    }
  }

  lemma KeyPassEnds(parent: Parents, pos: Positions, reasons: Labels, fs: seq<Fingerprint>, d: Catalog,
                    reason: Reason, past: seq<map<Id, Id>>, first: map<string, Id>)
    requires Stages(d, Level(reason), past) && reason != NearDuplicate
    requires InPass(parent, pos, reasons, fs, d, reason, past, first, |fs|)
    ensures AfterPass(parent, pos, reasons, fs, d, Level(reason), past + [Roots(parent, pos)])
  {
    assert fs[..|fs|] == fs;
    KeyPassAgreement(fs, d, pos, Roots(parent, pos), reason, past, first);
    FinishPass(d, pos, Level(reason), Partitioned(parent, pos, reasons), past);
  }

  /** `Passing`, of the forest as it stands. */
  ghost predicate InPass(parent: Parents, pos: Positions, reasons: Labels, fs: seq<Fingerprint>, d: Catalog,
                         reason: Reason,
                         past: seq<map<Id, Id>>, first: map<string, Id>, n: nat)
    requires n <= |fs|
  {
    && Forest(parent, pos) && Injective(pos) && |past| == Level(reason)
    && Passing(fs, d, pos, reason, Partitioned(parent, pos, reasons), past, past[|past| - 1], first, n)
  }

  /** `PassDone`, of the forest as it stands. */
  ghost predicate AfterPass(parent: Parents, pos: Positions, reasons: Labels, fs: seq<Fingerprint>, d: Catalog,
                            level: nat, past: seq<map<Id, Id>>) {
    && Forest(parent, pos) && Injective(pos) && Lists(fs, d, pos)
    && PassDone(d, pos, level, Partitioned(parent, pos, reasons), past)
  }

  lemma FirstTurn(parent: Parents, pos: Positions, reasons: Labels, fs: seq<Fingerprint>, d: Catalog, reason: Reason,
                  past: seq<map<Id, Id>>)
    requires AfterPass(parent, pos, reasons, fs, d, Level(reason) - 1, past)
    ensures InPass(parent, pos, reasons, fs, d, reason, past, map[], 0)
  {
    NextPass(d, pos, Level(reason) - 1, Partitioned(parent, pos, reasons), past);
    RefinesReflexive(Roots(parent, pos));
  }

  /** One turn of a pass: link source `n` to the first holder of its key, or
      make it that holder. */
  method LinkToHolder(parent: Parents, pos: Positions, reasons: Labels, first: map<string, Id>, fs: seq<Fingerprint>,
                      n: nat, reason: Reason,
                      ghost d: Catalog, ghost past: seq<map<Id, Id>>)
    returns (linked: Parents, labels: Labels, next: map<string, Id>)
    requires n < |fs| && reason != NearDuplicate
    requires InPass(parent, pos, reasons, fs, d, reason, past, first, n)
    ensures InPass(linked, pos, labels, fs, d, reason, past, next, n + 1)
  {
    linked, labels, next := parent, reasons, first;
    assert ListedAt(fs, d, pos, n);
    if KeyOf(reason, fs[n]) in first {
      assert HolderAt(d, first, reason, KeyOf(reason, fs[n]));
      linked, labels := Link(parent, pos, reasons, first[KeyOf(reason, fs[n])], fs[n].sourceId, reason, d, past);
      RefinesTransitive(past[|past| - 1], Roots(parent, pos), Roots(linked, pos));
    } else {
      next := first[KeyOf(reason, fs[n]) := fs[n].sourceId];
      RefinesReflexive(Roots(parent, pos));
    }
    HolderTurn(d, Roots(parent, pos), Roots(linked, pos), first, reason, fs, n);
  }

  /** One of the two passes that look sources up by a key: content hash, then
      canonical URL. Each source joins the first holder of its key. */
  method LinkByKey(parent: Parents, pos: Positions, reasons: Labels, fs: seq<Fingerprint>, reason: Reason,
                   ghost d: Catalog, ghost past: seq<map<Id, Id>>)
    returns (linked: Parents, labels: Labels, ghost stages: seq<map<Id, Id>>)
    requires reason != NearDuplicate
    requires AfterPass(parent, pos, reasons, fs, d, Level(reason) - 1, past)
    ensures AfterPass(linked, pos, labels, fs, d, Level(reason), stages)
  {
    FirstTurn(parent, pos, reasons, fs, d, reason, past);
    linked, labels := parent, reasons;
    var first: map<string, Id> := map[];
    for i := 0 to |fs|
      invariant InPass(linked, pos, labels, fs, d, reason, past, first, i)
    {
      linked, labels, first := LinkToHolder(linked, pos, labels, first, fs, i, reason, d, past);
    }
    KeyPassEnds(linked, pos, labels, fs, d, reason, past, first);
    stages := past + [Roots(linked, pos)];
  }

  // --- near duplicates ---------------------------------------------------------

  /** The sources whose text is long enough to compare. */
  function ComparableOnes(fs: seq<Fingerprint>): (cs: seq<Fingerprint>)
    ensures forall f :: f in cs <==> f in fs && Comparable(f)
  {
    if fs == [] then []
    else
      var rest := ComparableOnes(fs[1..]);
      if Comparable(fs[0]) then [fs[0]] + rest else rest
  }

  predicate PairAgrees(rep: map<Id, Id>, cs: seq<Fingerprint>, a: nat, b: nat)
    requires a < |cs| && b < |cs|
  {
    NearDuplicates(cs[a], cs[b]) ==>
      cs[a].sourceId in rep && cs[b].sourceId in rep && rep[cs[a].sourceId] == rep[cs[b].sourceId]
  }

  /** Of the pairs compared so far, those that are near duplicates have one root. */
  ghost predicate PairsAgree(rep: map<Id, Id>, cs: seq<Fingerprint>, i: nat, j: nat) {
    forall a, b {:trigger PairAgrees(rep, cs, a, b)} ::
      0 <= a < b < |cs| && (a < i || (a == i && b < j)) ==> PairAgrees(rep, cs, a, b)
  }

  lemma PairsSurvive(rep: map<Id, Id>, next: map<Id, Id>, cs: seq<Fingerprint>, i: nat, j: nat)
    requires Refines(rep, next) && PairsAgree(rep, cs, i, j)
    ensures PairsAgree(next, cs, i, j)
  {
    forall a, b | 0 <= a < b < |cs| && (a < i || (a == i && b < j)) ensures PairAgrees(next, cs, a, b) {
      assert PairAgrees(rep, cs, a, b);
      if NearDuplicates(cs[a], cs[b]) {
        assert StayTogether(rep, next, cs[a].sourceId, cs[b].sourceId);
      }
    }
  }

  /** The sources to compare: comparable, and near duplicates among them match. */
  ghost predicate Candidates(cs: seq<Fingerprint>, d: Catalog) {
    && (forall f :: f in cs ==> Comparable(f))
    && (forall f, g {:trigger NearDuplicates(f, g)} ::
          f in cs && g in cs && NearDuplicates(f, g) ==> Adjacent(d, 3, f.sourceId, g.sourceId))
  }

  /** A pairwise comparison in progress, over comparable sources of `d`. */
  ghost predicate Comparing(parent: Parents, pos: Positions, reasons: Labels, d: Catalog, past: seq<map<Id, Id>>,
                            cs: seq<Fingerprint>, i: nat, j: nat) {
    && Forest(parent, pos) && Injective(pos) && |past| == 3
    && InProgress(d, pos, 3, Partitioned(parent, pos, reasons), past)
    && Refines(past[2], Roots(parent, pos))
    && PairsAgree(Roots(parent, pos), cs, i, j)
  }

  /** One pair of `_near_duplicates`. */
  method ComparePair(parent: Parents, pos: Positions, reasons: Labels, cs: seq<Fingerprint>, i: nat, j: nat,
                     ghost d: Catalog, ghost past: seq<map<Id, Id>>)
    returns (linked: Parents, labels: Labels)
    requires i < j < |cs| && Comparing(parent, pos, reasons, d, past, cs, i, j)
    requires Candidates(cs, d)
    ensures Comparing(linked, pos, labels, d, past, cs, i, j + 1)
  {
    linked, labels := parent, reasons;
    assert cs[i] in cs && cs[j] in cs;
    if Contained(Shingles(cs[i].words), Shingles(cs[j].words)) {
      assert NearDuplicates(cs[i], cs[j]);
      linked, labels := Link(parent, pos, reasons, cs[i].sourceId, cs[j].sourceId, NearDuplicate, d, past);
      RefinesTransitive(past[2], Roots(parent, pos), Roots(linked, pos));
      PairsSurvive(Roots(parent, pos), Roots(linked, pos), cs, i, j);
    }
    PairAdded(Roots(linked, pos), cs, i, j);
  }

  lemma PairAdded(rep: map<Id, Id>, cs: seq<Fingerprint>, i: nat, j: nat)
    requires i < j < |cs| && PairsAgree(rep, cs, i, j) && PairAgrees(rep, cs, i, j)
    ensures PairsAgree(rep, cs, i, j + 1)
  {
  }

  lemma RowFinished(rep: map<Id, Id>, cs: seq<Fingerprint>, i: nat, j: nat)
    requires j >= |cs| && PairsAgree(rep, cs, i, j)
    ensures PairsAgree(rep, cs, i + 1, i + 2)
  {
  }

  /** One source against every later one. */
  method CompareRow(parent: Parents, pos: Positions, reasons: Labels, cs: seq<Fingerprint>, i: nat,
                    ghost d: Catalog, ghost past: seq<map<Id, Id>>)
    returns (linked: Parents, labels: Labels)
    requires i < |cs| && Comparing(parent, pos, reasons, d, past, cs, i, i + 1) && Candidates(cs, d)
    ensures Comparing(linked, pos, labels, d, past, cs, i + 1, i + 2)
  {
    linked, labels := parent, reasons;
    for j := i + 1 to |cs|
      invariant Comparing(linked, pos, labels, d, past, cs, i, j)
    {
      linked, labels := ComparePair(linked, pos, labels, cs, i, j, d, past);
    }
    RowFinished(Roots(linked, pos), cs, i, |cs|);
  }

  /** Every pair of comparable sources, compared once. */
  method ComparePairs(parent: Parents, pos: Positions, reasons: Labels, cs: seq<Fingerprint>,
                      ghost d: Catalog, ghost past: seq<map<Id, Id>>)
    returns (linked: Parents, labels: Labels)
    requires Comparing(parent, pos, reasons, d, past, cs, 0, 1) && Candidates(cs, d)
    ensures Comparing(linked, pos, labels, d, past, cs, |cs|, |cs| + 1)
  {
    linked, labels := parent, reasons;
    for i := 0 to |cs|
      invariant Comparing(linked, pos, labels, d, past, cs, i, i + 1)
    {
      linked, labels := CompareRow(linked, pos, labels, cs, i, d, past);
    }
  }

  lemma NearPassAgreement(fs: seq<Fingerprint>, d: Catalog, pos: Positions, rep: map<Id, Id>, past: seq<map<Id, Id>>)
    requires rep.Keys == d.Keys && Lists(fs, d, pos) && Stages(d, 3, past) && Refines(past[2], rep)
    requires |d| <= MAX_NEAR_DUPLICATE_CANDIDATES ==> PairsAgree(rep, ComparableOnes(fs), |ComparableOnes(fs)|, |ComparableOnes(fs)| + 1)
    ensures AdjacentAgree(d, 3, rep)
  {
    EarlierAgreementKept(d, 2, past[2], rep, past);
    var cs := ComparableOnes(fs);
    forall x, y | Adjacent(d, 3, x, y) ensures rep[x] == rep[y] {
      if !Adjacent(d, 2, x, y) && x != y {
        assert PlacedAt(fs, pos, x) && ListedAt(fs, d, pos, pos[x]) && PlacedAt(fs, pos, y) && ListedAt(fs, d, pos, pos[y]);
        assert d[x] in cs && d[y] in cs;
        var a :| 0 <= a < |cs| && cs[a] == d[x];
        var b :| 0 <= b < |cs| && cs[b] == d[y];
        if a < b {
          assert PairAgrees(rep, cs, a, b);
        } else {
          assert Shingles(d[x].words) * Shingles(d[y].words) == Shingles(d[y].words) * Shingles(d[x].words);
          assert PairAgrees(rep, cs, b, a);
        }
      }
    }
  }

  lemma ComparableListed(fs: seq<Fingerprint>, d: Catalog, pos: Positions)
    requires Lists(fs, d, pos) && |d| <= MAX_NEAR_DUPLICATE_CANDIDATES
    ensures Candidates(ComparableOnes(fs), d)
  {
    forall f | f in ComparableOnes(fs) ensures f.sourceId in d && d[f.sourceId] == f {
      var i :| 0 <= i < |fs| && fs[i] == f;
      assert ListedAt(fs, d, pos, i);
    }
  }

  /** The judgement pass. Beyond the candidate ceiling it compares nothing. */
  method LinkNearDuplicates(parent: Parents, pos: Positions, reasons: Labels, fs: seq<Fingerprint>,
                            ghost d: Catalog, ghost past: seq<map<Id, Id>>)
    returns (linked: Parents, labels: Labels, ghost stages: seq<map<Id, Id>>)
    requires AfterPass(parent, pos, reasons, fs, d, 2, past) && |fs| == |d|
    ensures AfterPass(linked, pos, labels, fs, d, 3, stages)
  {
    NextPass(d, pos, 2, Partitioned(parent, pos, reasons), past);
    RefinesReflexive(Roots(parent, pos));
    linked, labels := parent, reasons;
    if |fs| <= MAX_NEAR_DUPLICATE_CANDIDATES {
      ComparableListed(fs, d, pos);
      linked, labels := ComparePairs(parent, pos, reasons, ComparableOnes(fs), d, past);
    }
    NearPassAgreement(fs, d, pos, Roots(linked, pos), past);
    FinishPass(d, pos, 3, Partitioned(linked, pos, labels), past);
    stages := past + [Roots(linked, pos)];
  }
}
