/** What a run's own agents can answer to make it as long as it can be: one
    source, one span and one claim to write about, and a draft whose citation
    names nothing. */
module WorstReplies {
  import opened Wrappers
  import opened Schemas
  import opened Reducers
  import opened Catalogs
  import opened Finding
  import opened Flattening
  import opened Planning
  import opened Keys
  import opened Extraction
  import opened Extracting
  import opened Normalizing
  import opened Markers
  import opened Citations
  import opened Synthesis

  // --- one span ------------------------------------------------------------------------------------

  const QUOTE := "Exactly what was written."
  const STORED: map<Id, string> := map[0 := QUOTE]

  function OneSource(key: string): seq<SourceRef> {
    [SourceRef(0, key, "https://example.org")]
  }

  function OneOutcome(key: string, iteration: nat): TaskOutcome {
    TaskOutcomeValue(key, iteration, OneSource(key))
  }

  const CHUNK := Chunk(0, 0, 0, 0, QUOTE)

  function OneAnswer(): Answer {
    AnswerValue([CandidateValue(1, QUOTE, Supports)], [0])
  }

  function OneCall(key: string): Calls {
    Calls(map[key := [CHUNK]], [OneAnswer()])
  }

  lemma OneCallIsHonest(key: string)
    ensures Honest(STORED, OneSource(key), OneCall(key))
  {
    var sources := OneSource(key);
    assert sources[..0] == [] && SourcesOf(sources, key) == [] + sources;
    assert SourceIdOf(sources[0]) == 0;
    assert StandsAt(STORED[0], CHUNK.text, 0);
    assert HonestFor(STORED, sources, OneCall(key), key);
  }

  lemma OneTaskIsRead(key: string, iteration: nat)
    ensures TasksRead([OneOutcome(key, iteration)], OneSource(key), iteration) == [key]
  {
    var completed, sources := [OneOutcome(key, iteration)], OneSource(key);
    assert completed[0].iteration == iteration && completed[0].taskKey == key;
    assert DoneIn(completed, iteration, key);
    assert sources[..0] == [] && TasksRead(completed, [], iteration) == [];
    assert [] + [key] == [key];
  }

  lemma OnePassageIsRead(p: Passage)
    ensures Interleaved([[p]]) == [p]
  {
    var perTask := [[p]];
    assert perTask[..0] == [] && Longest(perTask) == 1;
    FlattenOne(RowParts(perTask, 0), 0);
    assert RowParts(perTask, 0) == [[p]] && RowParts(perTask, 0)[..1] == RowParts(perTask, 0);
    assert Row(perTask, 0) == [] + [p];
    FlattenOne(Rows(perTask, 1), 0);
    assert Rows(perTask, 1)[..1] == Rows(perTask, 1) && Flattened(Rows(perTask, 1)) == [] + [p];
    assert [p][..0] == [] && FirstOfEach([p]) == [] + [p];
  }

  lemma OneBatchIsRead(p: Passage)
    ensures Batches([p], PASSAGES_PER_CALL, MAX_EXTRACTION_CALLS) == [[p]]
  {
    assert [p][..1] == [p] && [p][1..] == [];
    assert [[p]] + [] == [[p]];
  }

  lemma QuoteIsFound(p: Passage)
    requires p.chunk == CHUNK
    ensures ExtractedFrom([p], OneAnswer().candidates, OneAnswer().ids) != []
  {
    var candidates, ids := OneAnswer().candidates, OneAnswer().ids;
    assert CHUNK.text[0..|QUOTE|] == QUOTE;
    assert Located(candidates[0], p, ids[0]).Some?;
    assert KeptOf([p], candidates[0], ids[0]) != [];
  }

  /** The extractor returns something. */
  lemma SomethingExtracted(key: string, iteration: nat)
    ensures Extracted([OneOutcome(key, iteration)], OneSource(key), iteration, OneCall(key)) != []
  {
    var calls := OneCall(key);
    var p := Passage(CHUNK, key, iteration);
    OneTaskIsRead(key, iteration);
    assert ChunksFor(calls, key) == [CHUNK] && Labelled([CHUNK], key, iteration) == [p];
    assert PassagesOf([key], calls, iteration) == [[p]];
    OnePassageIsRead(p);
    OneBatchIsRead(p);
    QuoteIsFound(p);
    var parts := Answered([[p]], calls.answers);
    FlattenOne(parts, 0);
    assert parts[..1] == parts;
  }

  // --- one claim -----------------------------------------------------------------------------------

  function OneProposal(): seq<ProposedClaim> {
    [ProposedClaim("x", "x", "", 0, [1])]
  }

  lemma OneProposalFound(evidence: seq<EvidenceItem>)
    requires evidence != []
    ensures Found(evidence, [1]) == [evidence[0]]
  {
    assert [1][..0] == [];
    assert Found(evidence, []) == [] && [] + [evidence[0]] == [evidence[0]];
  }

  lemma SomethingUnclaimed(evidence: seq<EvidenceItem>)
    requires evidence != []
    ensures Unclaimed(evidence, []) != []
  {
    UnclaimedIsNew(evidence, []);
    assert evidence[0] in evidence && !IsClaimed([], evidence[0].id);
  }

  lemma WordIsKey(key: string)
    requires key == "x"
    ensures NormalizeKey(key) != []
  {
    assert key[0] in key && IsContent(LowerChar(key[0]));
    KeyOfContent(key, ' ');
  }

  /** Given something to make a claim of, the normalizer returns a claim. */
  lemma SomethingNormalized(evidence: seq<EvidenceItem>)
    requires evidence != []
    ensures var claims := Normalized(evidence, [], OneProposal()); claims.Some? && claims.value != []
  {
    var unclaimed := Unclaimed(evidence, []);
    var proposals := OneProposal();
    SomethingUnclaimed(evidence);
    OneProposalFound(unclaimed);
    WordIsKey(proposals[0].normalizedKey);
    assert proposals[..0] == [] && NormalizedAll([], unclaimed, []) == Some([]);
    OneClaimPut(unclaimed, proposals[0]);
  }

  lemma OneClaimPut(unclaimed: seq<EvidenceItem>, proposed: ProposedClaim)
    requires Found(unclaimed, proposed.evidence) != [] && NormalizeKey(proposed.normalizedKey) != []
    ensures var claims := NormalizedOne([], unclaimed, [], proposed); claims.Some? && claims.value != []
  {
  }

  // --- a citation of nothing -----------------------------------------------------------------------

  function InventedSections(catalog: seq<ClaimItem>): seq<ReportSectionDraft> {
    SectionsOf([SectionOutput(ExecutiveSummary, "Summary", "[0]")], catalog)
  }

  /** It is what the synthesizer makes of some output. */
  lemma InventedIsWritten(catalog: seq<ClaimItem>)
    ensures exists output :: InventedSections(catalog) == SectionsOf(output, catalog)
  {
    assert InventedSections(catalog) == SectionsOf([SectionOutput(ExecutiveSummary, "Summary", "[0]")], catalog);
  }

  lemma NothingIsCited(text: string)
    requires text == "[0]"
    ensures 0 in CitedNumbers(text)
  {
    assert text[1..] == "0]" && text[1..][1..] == "]";
    assert DigitRun("]") == 0 && DigitRun("0]") == 1;
    assert MarkerEnd(text) == Some(3);
    assert text[1..][..1] == "0";
    assert NumberOf("0") == NumberOf([]) * 10 + 0;
    assert text[0..] == text && Counted(text)[0] == [0];
    FlattenHolds(Counted(text), 0, 0);
  }

  lemma InventedIsCited(catalog: seq<ClaimItem>)
    ensures InventedSections(catalog) != [] && 0 in MarkersOf(InventedSections(catalog))
  {
    var section := SectionOutput(ExecutiveSummary, "Summary", "[0]");
    var output := [section];
    NothingWrittenIsLost(output, catalog, section);
    assert output[..0] == [] && Blocks(output, ExecutiveSummary) == [] + [section];
    var sections := InventedSections(catalog);
    var draft :| draft in sections && draft.contentMd == Synthesis.Joined(Blocks(output, ExecutiveSummary));
    var i :| 0 <= i < |sections| && sections[i] == draft;
    NothingIsCited(draft.contentMd);
    MarkerOfSection(sections, i, 0);
  }

  lemma InventedIsRejected(records: Records, report: ReportDraft)
    requires 0 in MarkersOf(report.sections)
    ensures !Checked(records, report).Passed()
  {
    PassesWhenAllResolve(records, report);
    assert !Resolves(records, 0);
  }
}
