/** The values the research graph carries in its state (`agents/schemas.py`).
    A subset type holds what a validator of the source enforces. */
module Schemas {
  import opened Wrappers
  import opened Ordering

  /** An identifier, represented by its place in the order of its string form. */
  type Id = nat

  type Positive = n: int | n >= 1 witness 1

  /** Instants and durations, in one unit; money, in micro-dollars. */
  type Time = int

  const MAX_EVIDENCE_PER_CLAIM := 50
  const MAX_CLAIMS_PER_SECTION := 500
  const MAX_REPORT_SECTIONS := 20

  datatype Mode = Quick | Deep | Conversational

  datatype GraphNode =
    | Planner | Researcher | EvidenceExtractor | ClaimNormalizer | Verifier
    | ContradictionChecker | Critic | Answerer | Synthesizer | CitationValidator

  datatype StopReason =
    | Cancelled | Cost | CostUnmeasured | Runtime | Sources | SearchQueries | Iterations | DiscoveryFailed

  // --- allowances and usage ------------------------------------------------------

  datatype RunBudget = RunBudget(
    maxIterations: Positive,
    maxSources: Positive,
    maxSearchQueries: Positive,
    maxRuntime: Positive,
    maxCost: Positive)

  /** Estimated spend, and the calls in it whose price is unknown. */
  datatype CostEstimate = CostEstimate(usd: nat, uncostedCalls: nat) {
    predicate Measured() {
      uncostedCalls == 0
    }

    function Plus(other: CostEstimate): CostEstimate {
      CostEstimate(usd + other.usd, uncostedCalls + other.uncostedCalls)
    }
  }

  datatype NodeUsage = NodeUsage(cost: CostEstimate, searchQueries: nat) {
    function Plus(other: NodeUsage): NodeUsage {
      NodeUsage(cost.Plus(other.cost), searchQueries + other.searchQueries)
    }
  }

  const NO_USAGE := NodeUsage(CostEstimate(0, 0), 0)

  datatype Consumption = Consumption(iterations: nat, sources: nat, searchQueries: nat, runtime: nat, cost: CostEstimate)

  /** Active research time as of an instant. */
  datatype RunClock = RunClock(elapsed: nat, asOf: Time) {
    function ElapsedAt(now: Time, resumedAt: Time): nat {
      var anchor := if asOf >= resumedAt then asOf else resumedAt;
      elapsed + if now > anchor then now - anchor else 0
    }

    function AdvancedTo(now: Time, resumedAt: Time): RunClock {
      RunClock(ElapsedAt(now, resumedAt), now)
    }
  }

  // --- planning ------------------------------------------------------------------

  datatype TaskPriority = High | Medium | Low

  datatype Subtask = Subtask(key: string, question: string, priority: TaskPriority, iteration: nat)

  datatype PlanValue = PlanValue(researchGoal: string, iteration: nat, subtasks: seq<Subtask>) {
    /** A plan names each subtask once, and every one belongs to its round. */
    predicate Consistent() {
      && (forall i, j :: 0 <= i < j < |subtasks| ==> subtasks[i].key != subtasks[j].key)
      && (forall i :: 0 <= i < |subtasks| ==> subtasks[i].iteration == iteration)
    }
  }

  type Plan = p: PlanValue | p.Consistent() witness PlanValue("", 1, [])

  /** What one researcher is given: its subtask, and how many searches, sources
      and units of time it may use. */
  datatype SubtaskAssignment = SubtaskAssignment(
    subtask: Subtask,
    queryAllowance: Positive,
    sourceAllowance: Positive,
    timeAllowance: Positive)

  // --- researching ---------------------------------------------------------------

  datatype SourceRef = SourceRef(sourceId: Id, taskKey: string, url: string)

  datatype TaskOutcomeValue = TaskOutcomeValue(taskKey: string, iteration: nat, sources: seq<SourceRef>) {
    predicate OwnSources() {
      forall i :: 0 <= i < |sources| ==> sources[i].taskKey == taskKey
    }
  }

  type TaskOutcome = o: TaskOutcomeValue | o.OwnSources() witness TaskOutcomeValue("", 1, [])

  datatype Fault =
    | StepFailed
    | SourcesExceeded(reported: nat, allowed: nat)
    | QueriesExceeded(used: nat, allowed: nat)

  datatype NodeError = NodeError(node: GraphNode, iteration: nat, fault: Fault, taskKey: Option<string>)

  // --- evidence, claims, contradictions --------------------------------------------

  datatype EvidenceStance = Supports | Refutes | Neutral

  datatype EvidenceValue = EvidenceValue(
    id: Id, taskKey: string, iteration: nat, sourceId: Id, documentId: Id,
    claimText: string, spanStart: nat, spanEnd: nat, stance: EvidenceStance)
  {
    /** The offsets bracket exactly the quoted text, which is not empty. */
    predicate Bracketed() {
      spanStart < spanEnd && spanEnd - spanStart == |claimText|
    }
  }

  type EvidenceItem = e: EvidenceValue | e.Bracketed()
    witness EvidenceValue(0, "", 1, 0, 0, "x", 0, 1, Neutral)

  datatype ClaimStatus = Candidate | Verified | Contested | Refuted

  datatype ClaimValue = ClaimValue(
    id: Id, normalizedKey: string, text: string, status: ClaimStatus, confidence: nat,
    evidenceIds: seq<Id>, objectValue: string)
  {
    /** Never without a key, and never without evidence. */
    predicate Grounded() {
      normalizedKey != [] && 1 <= |evidenceIds| <= MAX_EVIDENCE_PER_CLAIM
    }
  }

  type ClaimItem = c: ClaimValue | c.Grounded() witness ClaimValue(0, "k", "", Candidate, 0, [0], "")

  datatype ContradictionValue = ContradictionValue(
    id: Id, normalizedKey: string, claimAId: Id, claimBId: Id, likelyReason: string)
  {
    predicate TwoClaims() {
      claimAId != claimBId
    }
  }

  type ContradictionItem = c: ContradictionValue | c.TwoClaims() witness ContradictionValue(0, "", 0, 1, "")

  function EvidenceId(e: EvidenceItem): Id { e.id }

  function ClaimId(c: ClaimItem): Id { c.id }

  function ContradictionId(c: ContradictionItem): Id { c.id }

  // --- judging and writing ---------------------------------------------------------

  datatype CritiqueValue = CritiqueValue(iteration: nat, sufficient: bool, missing: seq<string>) {
    predicate Actionable() {
      sufficient || missing != []
    }
  }

  type Critique = c: CritiqueValue | c.Actionable() witness CritiqueValue(1, true, [])

  /** From the first section of a report to its last. */
  datatype ReportSectionKind =
    | ExecutiveSummary | KeyFindings | DetailedAnalysis | CompetitiveLandscape | EvidenceSection
    | Contradictions | ConfidenceAssessment | Recommendations | References

  datatype ReportSectionDraft = ReportSectionDraft(kind: ReportSectionKind, heading: string, contentMd: string, claimIds: seq<Id>)

  /** What a coverage caveat is built from: the limit it explains, what was
      measured against it, and what the critic still wanted. */
  datatype Caveat = Caveat(explains: StopReason, used: Consumption, missing: seq<string>)

  datatype Stop = Stop(reason: StopReason, caveat: Option<Caveat>)

  datatype ReportDraft = ReportDraft(title: string, revision: nat, sections: seq<ReportSectionDraft>, coverageCaveat: Option<Caveat>)

  datatype AnswerDraft = AnswerDraft(text: string, claimIds: seq<Id>)

  datatype RejectionReason =
    | ClaimNotInRun | ClaimWithoutEvidence | EvidenceWithoutRetrievedSource | NoSuchClaim

  datatype RejectionCount = RejectionCount(reason: RejectionReason, count: Positive)

  function CountedRejections(rejections: seq<RejectionCount>): nat {
    if rejections == [] then 0 else rejections[0].count + CountedRejections(rejections[1..])
  }

  datatype CitationCheckValue = CitationCheckValue(
    revision: nat, checked: nat, valid: nat, rejected: nat,
    rejections: seq<RejectionCount>, repairInstructions: Option<seq<nat>>)
  {
    /** Every checked citation is valid or rejected, and a rejection has
        instructions and, if counted at all, one reason. */
    predicate Accounted() {
      && checked == valid + rejected
      && (rejected > 0 ==> repairInstructions.Some?)
      && (rejections != [] ==> CountedRejections(rejections) == rejected)
    }

    predicate Passed() {
      rejected == 0
    }
  }

  type CitationCheck = c: CitationCheckValue | c.Accounted() witness CitationCheckValue(0, 0, 0, 0, [], None)
}
