/** What a citation in a finished report is worth: the numbers the writer was
    shown are the numbers the validator checks, and a report that passes cites
    only claims that rest on stored spans of retrieved sources. */
module CitedReport {
  import opened Wrappers
  import opened Schemas
  import opened Reducers
  import opened Catalogs
  import opened Markers
  import opened Citations
  import opened Synthesis
  import opened Extraction
  import opened Normalizing
  import opened Graph
  import opened GraphTermination
  import opened Grounding
  import opened Integrity

  // --- the catalogue does not move while the report is written -----------------------------------

  /** Past discovery: only the answer, the report and its check are left. */
  predicate Writing(next: Next) {
    next in {At(Answerer), At(Synthesizer), At(CitationValidator), End}
  }

  lemma WriterAddsNothing(s: State, input: Input, resumedAt: Time)
    ensures AnswererNode(s, input, resumedAt).Wrote? ==> AnswererNode(s, input, resumedAt).update.found == NO_MATERIAL
    ensures SynthesizerNode(s, input, resumedAt).Wrote? ==> SynthesizerNode(s, input, resumedAt).update.found == NO_MATERIAL
    ensures ValidatorNode(s, input, resumedAt).Wrote? ==> ValidatorNode(s, input, resumedAt).update.found == NO_MATERIAL
  {
  }

  lemma GatheredNothing(m: Material)
    requires Unique(m)
    ensures Gathered(m, NO_MATERIAL) == m
  {
    GatheredKinds(m, NO_MATERIAL);
  }

  lemma StepWhileWriting(cfg: Config, m: Machine, e: Event)
    requires Writing(m.next) && Unique(m.state.found)
    ensures Writing(After(cfg, m, e).next) && After(cfg, m, e).state.found == m.state.found
  {
    if Commits(cfg, m, e) {
      WriterAddsNothing(m.state, e.input, m.resumedAt);
      GatheredNothing(m.state.found);
    }
  }

  /** From the moment the answer is due, whatever happens, and however many
      drafts are written: the catalogue the synthesizer numbers is the one the
      validator rebuilds. */
  lemma {:induction false} CatalogStaysWhileWriting(cfg: Config, m: Machine, events: seq<Event>)
    requires Writing(m.next) && Unique(m.state.found)
    ensures Run(cfg, m, events).state.found == m.state.found
    ensures ClaimCatalog(Run(cfg, m, events).state.found.claims, MAX_PROMPT_CLAIMS) == ClaimCatalog(m.state.found.claims, MAX_PROMPT_CLAIMS)
    decreases |events|
  {
    if events != [] {
      StepWhileWriting(cfg, m, events[0]);
      CatalogStaysWhileWriting(cfg, After(cfg, m, events[0]), events[1..]);
    }
  }

  // --- the writers' own replies ----------------------------------------------------------------------

  function CatalogOf(s: State): seq<ClaimItem> {
    RecordsOf(s.found).Catalog()
  }

  /** A draft the synthesizer could have returned: with a catalogue to cite,
      and at least one section of what its model wrote. */
  ghost predicate GenuineDraft(s: State, draft: ReportDraft) {
    CatalogOf(s) != [] && draft.sections != []
    && exists output :: draft.sections == SectionsOf(output, CatalogOf(s))
  }

  /** The check the validator returns. */
  predicate GenuineCheck(s: State, check: CitationCheck) {
    s.report.Some? && check == Checked(RecordsOf(s.found), s.report.value)
  }

  ghost predicate GenuineWriting(m: Machine, e: Event) {
    e.Stepped? && e.input.reply.Returned? ==>
      && (m.next == At(Synthesizer) && e.input.reply.value.ReportValued? ==> GenuineDraft(m.state, e.input.reply.value.report))
      && (m.next == At(CitationValidator) && e.input.reply.value.CheckValued? ==> GenuineCheck(m.state, e.input.reply.value.check))
  }

  ghost predicate GenuinelyWritten(cfg: Config, m: Machine, events: seq<Event>)
    decreases |events|
  {
    events == [] || (GenuineWriting(m, events[0]) && GenuinelyWritten(cfg, After(cfg, m, events[0]), events[1..]))
  }

  // --- the report and its check ------------------------------------------------------------------------

  /** There is a draft, of readable sections over the run's catalogue. */
  predicate HasReadableDraft(s: State) {
    s.report.Some? && s.report.value.sections != [] && Readable(s.report.value.sections, CatalogOf(s))
  }

  predicate HasOwnCheck(s: State) {
    s.report.Some? && s.check == Some(Checked(RecordsOf(s.found), s.report.value))
  }

  predicate Written(m: Machine) {
    StopReasonOf(m.state) != Some(Cancelled) ==>
      && (m.next in {At(CitationValidator), End} ==> HasReadableDraft(m.state))
      && (m.next == End ==> HasOwnCheck(m.state))
  }

  lemma SynthesizerWrites(s: State, input: Input, resumedAt: Time)
    requires SynthesizerNode(s, input, resumedAt).Wrote?
    ensures var u := SynthesizerNode(s, input, resumedAt).update;
            (u.stop.Some? && u.stop.value.reason == Cancelled) ||
            (input.reply.Returned? && input.reply.value.ReportValued? && u.report.Some?
             && u.report.value.sections == input.reply.value.report.sections)
  {
  }

  lemma GenuineDraftIsReadable(s: State, draft: ReportDraft)
    requires GenuineDraft(s, draft)
    ensures Readable(draft.sections, CatalogOf(s))
  {
    var output :| draft.sections == SectionsOf(output, CatalogOf(s));
    SectionsReadable(output, CatalogOf(s));
  }

  lemma AppliedDraft(s: State, u: Update, sections: seq<ReportSectionDraft>)
    requires Unique(s.found) && u.found == NO_MATERIAL
    requires u.report.Some? && u.report.value.sections == sections && sections != [] && Readable(sections, CatalogOf(s))
    ensures HasReadableDraft(Applied(s, u))
  {
    GatheredNothing(s.found);
  }

  lemma SynthesizerDrafts(s: State, input: Input, resumedAt: Time)
    requires Unique(s.found) && SynthesizerNode(s, input, resumedAt).Wrote?
    requires input.reply.Returned? && input.reply.value.ReportValued? ==> GenuineDraft(s, input.reply.value.report)
    ensures var s' := Applied(s, SynthesizerNode(s, input, resumedAt).update);
            StopReasonOf(s') == Some(Cancelled) || HasReadableDraft(s')
  {
    var u := SynthesizerNode(s, input, resumedAt).update;
    SynthesizerWrites(s, input, resumedAt);
    WriterAddsNothing(s, input, resumedAt);
    if u.stop.Some? && u.stop.value.reason == Cancelled {
      CancelledStays(s, u);
    } else {
      GenuineDraftIsReadable(s, input.reply.value.report);
      AppliedDraft(s, u, input.reply.value.report.sections);
    }
  }

  lemma CancelledStays(s: State, u: Update)
    requires u.stop.Some? && u.stop.value.reason == Cancelled
    ensures StopReasonOf(Applied(s, u)) == Some(Cancelled)
  {
  }

  lemma DraftIsReadable(cfg: Config, m: Machine, u: Update)
    requires StopReasonOf(Applied(m.state, u)) == Some(Cancelled) || HasReadableDraft(Applied(m.state, u))
    ensures Written(Reached(cfg, m, Synthesizer, u))
  {
  }

  lemma ValidatorWrites(s: State, input: Input, resumedAt: Time)
    requires ValidatorNode(s, input, resumedAt).Wrote?
    ensures var u := ValidatorNode(s, input, resumedAt).update;
            u.report.None? &&
            ((u.stop.Some? && u.stop.value.reason == Cancelled) ||
             (input.reply.Returned? && input.reply.value.CheckValued? && u.check == Some(Some(input.reply.value.check))))
  {
  }

  lemma CheckIsOwn(cfg: Config, m: Machine, input: Input)
    requires Unique(m.state.found) && m.next == At(CitationValidator) && Written(m) && GenuineWriting(m, Stepped(input))
    requires ValidatorNode(m.state, input, m.resumedAt).Wrote?
    ensures Written(Reached(cfg, m, CitationValidator, ValidatorNode(m.state, input, m.resumedAt).update))
  {
    ValidatorWrites(m.state, input, m.resumedAt);
    WriterAddsNothing(m.state, input, m.resumedAt);
    GatheredNothing(m.state.found);
  }

  lemma OthersDoNotFinish(cfg: Config, m: Machine, node: GraphNode, u: Update)
    requires node != Synthesizer && node != CitationValidator
    ensures Written(Reached(cfg, m, node, u))
  {
  }

  lemma DraftWritten(cfg: Config, m: Machine, input: Input)
    requires Unique(m.state.found) && m.next == At(Synthesizer) && GenuineWriting(m, Stepped(input))
    requires SynthesizerNode(m.state, input, m.resumedAt).Wrote?
    ensures Written(Reached(cfg, m, Synthesizer, SynthesizerNode(m.state, input, m.resumedAt).update))
  {
    SynthesizerDrafts(m.state, input, m.resumedAt);
    DraftIsReadable(cfg, m, SynthesizerNode(m.state, input, m.resumedAt).update);
  }

  lemma NodeWritten(cfg: Config, m: Machine, input: Input)
    requires Unique(m.state.found) && Written(m) && m.next.At? && GenuineWriting(m, Stepped(input))
    requires NodeStep(cfg, m.next.node, m.state, input, m.resumedAt).Wrote?
    ensures Written(Reached(cfg, m, m.next.node, NodeStep(cfg, m.next.node, m.state, input, m.resumedAt).update))
  {
    if m.next.node == Synthesizer {
      DraftWritten(cfg, m, input);
    } else if m.next.node == CitationValidator {
      CheckIsOwn(cfg, m, input);
    } else {
      OthersDoNotFinish(cfg, m, m.next.node, NodeStep(cfg, m.next.node, m.state, input, m.resumedAt).update);
    }
  }

  lemma StepWritten(cfg: Config, m: Machine, e: Event)
    requires Unique(m.state.found) && Written(m) && GenuineWriting(m, e)
    ensures Written(After(cfg, m, e))
  {
    if Commits(cfg, m, e) && m.next.At? {
      NodeWritten(cfg, m, e.input);
    }
  }

  lemma {:induction false} RunWritten(documents: map<Id, string>, cfg: Config, m: Machine, events: seq<Event>)
    requires Integrity.Sound(documents, m) && GenuineRun(documents, cfg, m, events)
    requires Written(m) && GenuinelyWritten(cfg, m, events)
    ensures Written(Run(cfg, m, events))
    decreases |events|
  {
    if events != [] {
      StepWritten(cfg, m, events[0]);
      Integrity.StepSound(documents, cfg, m, events[0]);
      RunWritten(documents, cfg, After(cfg, m, events[0]), events[1..]);
    }
  }

  // --- what a reader can follow ----------------------------------------------------------------------

  /** A number leads to a claim of the run that rests on at least one span, and
      every span it rests on is stored, reads back from the document it is from,
      and is of a source that was retrieved. */
  predicate LeadsToSources(documents: map<Id, string>, m: Material, n: nat) {
    var catalog := ClaimCatalog(m.claims, MAX_PROMPT_CLAIMS);
    && 1 <= n <= |catalog| && catalog[n - 1] in m.claims && catalog[n - 1].evidenceIds != []
    && forall id :: id in catalog[n - 1].evidenceIds ==> SpanReads(documents, m, id)
  }

  predicate SpanReads(documents: map<Id, string>, m: Material, id: Id) {
    var item := Lookup(EvidenceId, m.evidence, id);
    item.Some? && ReadsBack(documents, item.value) && Retrieved(m.sources, item.value.sourceId)
  }

  lemma NumberLeadsToSources(documents: map<Id, string>, m: Material, n: nat)
    requires Grounded(documents, m) && Numbered(ClaimCatalog(m.claims, MAX_PROMPT_CLAIMS), n)
    ensures LeadsToSources(documents, m, n)
  {
    var catalog := ClaimCatalog(m.claims, MAX_PROMPT_CLAIMS);
    CatalogOfClaims(m.claims, MAX_PROMPT_CLAIMS);
    var claim := catalog[n - 1];
    assert claim in catalog && claim in m.claims;
    assert Rests(m.evidence, claim);
    forall id | id in claim.evidenceIds ensures SpanReads(documents, m, id) {
      var item := Lookup(EvidenceId, m.evidence, id).value;
      assert item in m.evidence && SpanGrounded(documents, m.sources, item);
    }
  }

  /** Every number a section cites leads to sources. */
  predicate SectionHolds(documents: map<Id, string>, m: Material, section: ReportSectionDraft) {
    forall n :: n in CitedNumbers(section.contentMd) ==> LeadsToSources(documents, m, n)
  }

  /** The whole chain, over whole runs. A run of its own agents that ends
      uncancelled has a report whose sections each list exactly the claims their
      text cites; its check passes exactly when every number cited is one of the
      catalogue's, and rejects for no other reason; and if it passes, every
      number in the report leads to spans that read back from the documents they
      are from, of sources the run retrieved. */
  lemma FinishedReportHolds(documents: map<Id, string>, cfg: Config, now: Time, events: seq<Event>)
    requires GenuineRun(documents, cfg, Started(now), events) && GenuinelyWritten(cfg, Started(now), events)
    requires var m := Run(cfg, Started(now), events); m.next == End && StopReasonOf(m.state) != Some(Cancelled)
    ensures var s := Run(cfg, Started(now), events).state;
            && HasReadableDraft(s) && s.check.Some?
            && (s.check.value.Passed() <==> forall n :: n in MarkersOf(s.report.value.sections) ==> Numbered(CatalogOf(s), n))
            && (forall r :: r in s.check.value.rejections ==> r.reason == NoSuchClaim)
            && (s.check.value.Passed() ==>
                  forall section :: section in s.report.value.sections ==> SectionHolds(documents, s.found, section))
  {
    StartedSound(documents, now);
    RunSound(documents, cfg, Started(now), events);
    RunWritten(documents, cfg, Started(now), events);
    ReportHolds(documents, Run(cfg, Started(now), events).state);
  }

  lemma ReportHolds(documents: map<Id, string>, s: State)
    requires Grounded(documents, s.found) && HasReadableDraft(s) && HasOwnCheck(s)
    ensures s.check.value.Passed() <==> forall n :: n in MarkersOf(s.report.value.sections) ==> Numbered(CatalogOf(s), n)
    ensures forall r :: r in s.check.value.rejections ==> r.reason == NoSuchClaim
    ensures s.check.value.Passed() ==>
              forall section :: section in s.report.value.sections ==> SectionHolds(documents, s.found, section)
  {
    GroundedIsWellFounded(documents, s.found);
    PassesWhenNumbersExist(RecordsOf(s.found), s.report.value);
    if s.check.value.Passed() {
      forall section | section in s.report.value.sections ensures SectionHolds(documents, s.found, section) {
        var i :| 0 <= i < |s.report.value.sections| && s.report.value.sections[i] == section;
        forall n | n in CitedNumbers(section.contentMd) ensures LeadsToSources(documents, s.found, n) {
          MarkerOfSection(s.report.value.sections, i, n);
          NumberLeadsToSources(documents, s.found, n);
        }
      }
    }
  }
}
