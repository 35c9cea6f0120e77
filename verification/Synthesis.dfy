/** The sections a report keeps (`_sections` and `_cited_claims` in
    `agents/synthesis.py`). */
module Synthesis {
  import opened Wrappers
  import opened Ordering
  import opened Schemas
  import opened Reducers
  import opened Catalogs
  import opened Markers
  import opened Distinct
  import opened Flattening

  datatype SectionOutput = SectionOutput(kind: ReportSectionKind, heading: string, contentMd: string)

  /** Kinds no model writes: they are put together from the run's records. */
  predicate Assembled(kind: ReportSectionKind) {
    kind == EvidenceSection || kind == References
  }

  /** Where a kind of section stands in a report. */
  function Place(kind: ReportSectionKind): (place: nat)
    ensures place < KINDS
  {
    match kind
    case ExecutiveSummary => 0
    case KeyFindings => 1
    case DetailedAnalysis => 2
    case CompetitiveLandscape => 3
    case EvidenceSection => 4
    case Contradictions => 5
    case ConfidenceAssessment => 6
    case Recommendations => 7
    case References => 8
  }

  const KINDS := 9

  function KindAt(place: nat): (kind: ReportSectionKind)
    requires place < KINDS
    ensures Place(kind) == place
  {
    match place
    case 0 => ExecutiveSummary
    case 1 => KeyFindings
    case 2 => DetailedAnalysis
    case 3 => CompetitiveLandscape
    case 4 => EvidenceSection
    case 5 => ReportSectionKind.Contradictions
    case 6 => ConfidenceAssessment
    case 7 => Recommendations
    case _ => References
  }

  // --- cited claims ----------------------------------------------------------------------

  /** The ids of the claims that numbers name, in the order they are cited. */
  function NamedIds(catalog: seq<ClaimItem>, numbers: seq<nat>): seq<Id> {
    if numbers == [] then []
    else
      var claim := Get(catalog, numbers[|numbers| - 1]);
      NamedIds(catalog, numbers[..|numbers| - 1]) + if claim.Some? then [claim.value.id] else []
  }

  /** The claims a text cites: without repeats, the first cited first, as many as
      a section lists. */
  function CitedClaims(markdown: string, catalog: seq<ClaimItem>): seq<Id> {
    Capped(FirstSeen(NamedIds(catalog, CitedNumbers(markdown))), MAX_CLAIMS_PER_SECTION)
  }

  /** One of the numbers is that of the claim with this id. */
  predicate Numbers(catalog: seq<ClaimItem>, numbers: seq<nat>, id: Id) {
    exists n :: n in numbers && 1 <= n <= |catalog| && catalog[n - 1].id == id
  }

  /** A text cites a claim if one of its markers is the claim's number. */
  predicate CitesClaim(markdown: string, catalog: seq<ClaimItem>, id: Id) {
    Numbers(catalog, CitedNumbers(markdown), id)
  }

  lemma NumbersOneMore(catalog: seq<ClaimItem>, init: seq<nat>, last: nat, id: Id)
    ensures Numbers(catalog, init + [last], id)
            <==> Numbers(catalog, init, id) || (1 <= last <= |catalog| && catalog[last - 1].id == id)
  {
    if n :| n in init && 1 <= n <= |catalog| && catalog[n - 1].id == id {
      assert n in init + [last];
    }
    if 1 <= last <= |catalog| && catalog[last - 1].id == id {
      assert last in init + [last];
    }
  }

  lemma {:induction false} NamedAreNumbered(catalog: seq<ClaimItem>, numbers: seq<nat>)
    ensures |NamedIds(catalog, numbers)| == |InRange(numbers, |catalog|)|
    ensures forall i :: 0 <= i < |NamedIds(catalog, numbers)| ==>
              var n := InRange(numbers, |catalog|)[i];
              1 <= n <= |catalog| && NamedIds(catalog, numbers)[i] == catalog[n - 1].id
    ensures forall id :: id in NamedIds(catalog, numbers) <==> Numbers(catalog, numbers, id)
  {
    if numbers != [] {
      var init, last := numbers[..|numbers| - 1], numbers[|numbers| - 1];
      NamedAreNumbered(catalog, init);
      assert numbers == init + [last];
      if 1 <= last <= |catalog| {
        assert NamedIds(catalog, numbers) == NamedIds(catalog, init) + [catalog[last - 1].id];
      }
      forall id ensures id in NamedIds(catalog, numbers) <==> Numbers(catalog, numbers, id) {
        NumbersOneMore(catalog, init, last, id);
      }
    }
  }

  /** Every id listed is that of a claim whose number is cited, none twice, and,
      unless the list is full, every claim cited is listed. */
  lemma ListedAreCited(markdown: string, catalog: seq<ClaimItem>)
    ensures NoDuplicates(CitedClaims(markdown, catalog))
    ensures forall id :: id in CitedClaims(markdown, catalog) ==> CitesClaim(markdown, catalog, id)
    ensures |CitedClaims(markdown, catalog)| < MAX_CLAIMS_PER_SECTION ==>
              forall id :: CitesClaim(markdown, catalog, id) ==> id in CitedClaims(markdown, catalog)
  {
    var named := NamedIds(catalog, CitedNumbers(markdown));
    NamedAreNumbered(catalog, CitedNumbers(markdown));
    NewIsNew([], named);
    forall id | id in CitedClaims(markdown, catalog) ensures id in FirstSeen(named) {
    }
  }

  method FindCitedClaims(markdown: string, catalog: seq<ClaimItem>) returns (ids: seq<Id>)
    ensures ids == CitedClaims(markdown, catalog)
    ensures NoDuplicates(ids) && forall id :: id in ids ==> CitesClaim(markdown, catalog, id)
    ensures |ids| < MAX_CLAIMS_PER_SECTION ==> forall id :: CitesClaim(markdown, catalog, id) ==> id in ids
  {
    var resolved: seq<Id> := [];
    var markers := FindCitedNumbers(markdown);
    for i := 0 to |markers|
      invariant resolved == FirstSeen(NamedIds(catalog, markers[..i]))
    {
      assert markers[..i + 1][..i] == markers[..i];
      var named := NamedIds(catalog, markers[..i]);
      var claim := Get(catalog, markers[i]);
      if claim.Some? {
        NewOne([], named, claim.value.id);
        if claim.value.id !in resolved {
          resolved := resolved + [claim.value.id];
        }
      } else {
        assert named + [] == named;
      }
    }
    assert markers[..|markers|] == markers;
    ids := Capped(resolved, MAX_CLAIMS_PER_SECTION);
    ListedAreCited(markdown, catalog);
  }

  lemma {:induction false} NamedConcat(catalog: seq<ClaimItem>, a: seq<nat>, b: seq<nat>)
    ensures NamedIds(catalog, a + b) == NamedIds(catalog, a) + NamedIds(catalog, b)
  {
    if b == [] {
      assert a + b == a;
    } else {
      NamedConcat(catalog, a, b[..|b| - 1]);
      assert (a + b)[..|a + b| - 1] == a + b[..|b| - 1];
    }
  }

  /** Citing claims in two blocks, one after the other, cites what the text
      they make up cites. */
  lemma CitedInBoth(a: string, b: string, catalog: seq<ClaimItem>)
    ensures CitedClaims(a + "\n\n" + b, catalog)
            == Capped(FirstSeen(CitedClaims(a, catalog) + CitedClaims(b, catalog)), MAX_CLAIMS_PER_SECTION)
  {
    CitedInJoined(a, b);
    NamedConcat(catalog, CitedNumbers(a), CitedNumbers(b));
    CapsMerge(NamedIds(catalog, CitedNumbers(a)), NamedIds(catalog, CitedNumbers(b)), MAX_CLAIMS_PER_SECTION);
  }

  // --- sections ------------------------------------------------------------------------------

  /** What was written of one kind. */
  function Blocks(output: seq<SectionOutput>, kind: ReportSectionKind): seq<SectionOutput> {
    if output == [] then []
    else
      var last := output[|output| - 1];
      Blocks(output[..|output| - 1], kind) + if last.kind == kind then [last] else []
  }

  function Joined(blocks: seq<SectionOutput>): string
    requires blocks != []
  {
    if |blocks| == 1 then blocks[0].contentMd
    else Joined(blocks[..|blocks| - 1]) + "\n\n" + blocks[|blocks| - 1].contentMd
  }

  /** The section of one kind: everything written of it, under its first
      heading, with the claims the whole of it cites. */
  function SectionOf(output: seq<SectionOutput>, kind: ReportSectionKind,
                     catalog: seq<ClaimItem>): Option<ReportSectionDraft> {
    var blocks := Blocks(output, kind);
    if Assembled(kind) || blocks == [] then None
    else Some(ReportSectionDraft(kind, blocks[0].heading, Joined(blocks), CitedClaims(Joined(blocks), catalog)))
  }

  predicate WellFormed(section: ReportSectionDraft, catalog: seq<ClaimItem>) {
    !Assembled(section.kind) && section.claimIds == CitedClaims(section.contentMd, catalog)
  }

  /** The section at each place of the reading order, where there is one. */
  function SectionAt(output: seq<SectionOutput>, catalog: seq<ClaimItem>, place: nat): (drafts: seq<ReportSectionDraft>)
    requires place < KINDS
    ensures forall d :: d in drafts ==> Place(d.kind) == place && WellFormed(d, catalog)
    ensures |drafts| <= 1
  {
    var section := SectionOf(output, KindAt(place), catalog);
    if section.Some? then [section.value] else []
  }

  function SectionParts(output: seq<SectionOutput>, catalog: seq<ClaimItem>): (parts: seq<seq<ReportSectionDraft>>)
    ensures |parts| == KINDS
  {
    seq(KINDS, place requires 0 <= place < KINDS => SectionAt(output, catalog, place))
  }

  function SectionsOf(output: seq<SectionOutput>, catalog: seq<ClaimItem>): seq<ReportSectionDraft> {
    Flattened(SectionParts(output, catalog))
  }

  /** The sections merged so far, by kind. */
  ghost predicate MergedSoFar(merged: map<ReportSectionKind, ReportSectionDraft>, done: seq<SectionOutput>,
                              catalog: seq<ClaimItem>) {
    forall kind: ReportSectionKind :: MergedKind(merged, done, catalog, kind)
  }

  ghost predicate MergedKind(merged: map<ReportSectionKind, ReportSectionDraft>, done: seq<SectionOutput>,
                             catalog: seq<ClaimItem>, kind: ReportSectionKind) {
    SectionOf(done, kind, catalog) == if kind in merged then Some(merged[kind]) else None
  }

  lemma OtherKindUnchanged(done: seq<SectionOutput>, section: SectionOutput, catalog: seq<ClaimItem>,
                           kind: ReportSectionKind)
    requires section.kind != kind || Assembled(kind)
    ensures SectionOf(done + [section], kind, catalog) == SectionOf(done, kind, catalog)
  {
    assert (done + [section])[..|done|] == done;
    assert Blocks(done, kind) + [] == Blocks(done, kind);
  }

  /** One more block of a kind: its text after a blank line, and its claims
      after those there are. */
  lemma OneMoreBlock(done: seq<SectionOutput>, section: SectionOutput, catalog: seq<ClaimItem>)
    requires !Assembled(section.kind)
    ensures var before := SectionOf(done, section.kind, catalog);
            var cited := CitedClaims(section.contentMd, catalog);
            SectionOf(done + [section], section.kind, catalog) == Some(
              if before.None? then ReportSectionDraft(section.kind, section.heading, section.contentMd, cited)
              else before.value.(
                contentMd := before.value.contentMd + "\n\n" + section.contentMd,
                claimIds := Capped(FirstSeen(before.value.claimIds + cited), MAX_CLAIMS_PER_SECTION)))
  {
    assert (done + [section])[..|done|] == done;
    var blocks := Blocks(done, section.kind);
    var all := Blocks(done + [section], section.kind);
    assert all == blocks + [section];
    if blocks != [] {
      assert all[..|all| - 1] == blocks;
      CitedInBoth(Joined(blocks), section.contentMd, catalog);
    }
  }

  method KeepSections(output: seq<SectionOutput>, catalog: seq<ClaimItem>) returns (drafts: seq<ReportSectionDraft>)
    ensures drafts == SectionsOf(output, catalog)
  {
    var merged: map<ReportSectionKind, ReportSectionDraft> := map[];
    for i := 0 to |output|
      invariant MergedSoFar(merged, output[..i], catalog)
    {
      var section := output[i];
      ghost var before := merged;
      ghost var done := output[..i + 1];
      assert done == output[..i] + [section];
      if !Assembled(section.kind) {
        var cited := FindCitedClaims(section.contentMd, catalog);
        var draft := ReportSectionDraft(section.kind, section.heading, section.contentMd, cited);
        OneMoreBlock(output[..i], section, catalog);
        assert MergedKind(before, output[..i], catalog, section.kind);
        if section.kind in merged {
          var existing := merged[section.kind];
          draft := existing.(
            contentMd := existing.contentMd + "\n\n" + section.contentMd,
            claimIds := Capped(FirstSeen(existing.claimIds + cited), MAX_CLAIMS_PER_SECTION));
        }
        merged := merged[section.kind := draft];
      }
      forall kind: ReportSectionKind ensures MergedKind(merged, done, catalog, kind) {
        assert MergedKind(before, output[..i], catalog, kind);
        if section.kind != kind || Assembled(kind) {
          OtherKindUnchanged(output[..i], section, catalog, kind);
        }
      }
    }
    assert output[..|output|] == output;

    drafts := [];
    ghost var parts := SectionParts(output, catalog);
    for n := 0 to KINDS
      invariant drafts == Flattened(parts[..n])
    {
      var kind := KindAt(n);
      assert MergedKind(merged, output, catalog, kind);
      FlattenOne(parts, n);
      if kind in merged {
        drafts := drafts + [merged[kind]];
      }
    }
    assert parts[..KINDS] == parts;
    FlattenShort(parts);
    drafts := Capped(drafts, MAX_REPORT_SECTIONS);
  }

  lemma {:induction false} FlattenShort(parts: seq<seq<ReportSectionDraft>>)
    requires forall i :: 0 <= i < |parts| ==> |parts[i]| <= 1
    ensures |Flattened(parts)| <= |parts|
  {
    if parts != [] {
      FlattenShort(parts[..|parts| - 1]);
    }
  }

  // --- what a reader can rely on ---------------------------------------------------------------

  /** Sections that stand alone: each well formed, in reading order, no kind
      twice. */
  predicate Readable(drafts: seq<ReportSectionDraft>, catalog: seq<ClaimItem>) {
    && (forall i :: 0 <= i < |drafts| ==> WellFormed(drafts[i], catalog))
    && (forall i, j :: 0 <= i < j < |drafts| ==> Place(drafts[i].kind) < Place(drafts[j].kind))
  }

  predicate Before(drafts: seq<ReportSectionDraft>, n: nat) {
    forall i :: 0 <= i < |drafts| ==> Place(drafts[i].kind) < n
  }

  lemma {:induction false} PartsReadable(parts: seq<seq<ReportSectionDraft>>, catalog: seq<ClaimItem>)
    requires forall i :: 0 <= i < |parts| ==> PartAt(parts[i], catalog, i)
    ensures Readable(Flattened(parts), catalog) && Before(Flattened(parts), |parts|)
  {
    if parts != [] {
      var n := |parts| - 1;
      var drafts, part := Flattened(parts[..n]), parts[n];
      PartsReadable(parts[..n], catalog);
      assert PartAt(part, catalog, n);
      if part == [] {
        assert drafts + part == drafts;
      } else {
        assert part == [part[0]];
        OneMoreSection(drafts, part[0], catalog, n);
      }
    }
  }

  lemma OneMoreSection(drafts: seq<ReportSectionDraft>, draft: ReportSectionDraft, catalog: seq<ClaimItem>, n: nat)
    requires Readable(drafts, catalog) && Before(drafts, n)
    requires WellFormed(draft, catalog) && Place(draft.kind) == n
    ensures Readable(drafts + [draft], catalog) && Before(drafts + [draft], n + 1)
  {
  }

  predicate PartAt(part: seq<ReportSectionDraft>, catalog: seq<ClaimItem>, place: nat) {
    |part| <= 1 && (part != [] ==> WellFormed(part[0], catalog) && Place(part[0].kind) == place)
  }

  /** A report's sections have distinct kinds, in reading order, none of them
      assembled, and each lists exactly the claims its own text cites, cap
      included, however many blocks it was written in. */
  lemma SectionsReadable(output: seq<SectionOutput>, catalog: seq<ClaimItem>)
    ensures Readable(SectionsOf(output, catalog), catalog)
    ensures forall d :: d in SectionsOf(output, catalog) ==> d.kind != EvidenceSection && d.kind != References
  {
    var parts := SectionParts(output, catalog);
    forall i | 0 <= i < |parts| ensures PartAt(parts[i], catalog, i) {
      assert parts[i] == SectionAt(output, catalog, i);
      assert parts[i] != [] ==> parts[i][0] in parts[i];
    }
    PartsReadable(parts, catalog);
  }

  /** Nothing written is lost: every block of a kind that is written, rather
      than assembled, is in that kind's section. */
  lemma NothingWrittenIsLost(output: seq<SectionOutput>, catalog: seq<ClaimItem>, section: SectionOutput)
    requires section in output && section.kind != EvidenceSection && section.kind != References
    ensures section in Blocks(output, section.kind)
    ensures exists draft :: draft in SectionsOf(output, catalog) && draft.kind == section.kind
                            && draft.contentMd == Joined(Blocks(output, section.kind))
  {
    BlockOfKind(output, section);
    var place := Place(section.kind);
    PlaceTellsApart(KindAt(place), section.kind);
    var draft := SectionOf(output, section.kind, catalog).value;
    assert draft in SectionParts(output, catalog)[place];
    FlattenHolds(SectionParts(output, catalog), place, draft);
  }

  lemma {:induction false} BlockOfKind(output: seq<SectionOutput>, section: SectionOutput)
    requires section in output
    ensures section in Blocks(output, section.kind)
  {
    var init, last := output[..|output| - 1], output[|output| - 1];
    assert output == init + [last];
    if section != last {
      BlockOfKind(init, section);
    }
  }

  lemma PlaceTellsApart(a: ReportSectionKind, b: ReportSectionKind)
    requires Place(a) == Place(b)
    ensures a == b
  {
  }
}
