# Aether: a verified model

Aether is a research service. A question is planned into subtasks, parallel
researchers gather sources, quotes become evidence, evidence becomes claims, and
a report is written that cites them; budgets, cancellation, crashes and resumes
can interrupt any of it. This project models five parts of its API in Dafny and
proves what they promise, over every input and every run.

* **The governed research graph** (`Graph`, `GraphNodes`, `Runtime`). One
  superstep of a run is a function of the state and of what happens outside:
  each agent returns a value of its output type, raises, is refused by the budget
  or breaks its contract; the cancel flag, the clock, the order parallel writes
  fold in, crashes and resumes are inputs too. Statements about every list of
  events are therefore statements about every run. `GraphRecords` says who writes
  what; `GraphGathering`, `GraphRounds`, `GraphTermination`, `GraphWorstCase`,
  `GraphLedger`, `GraphLimits`, `GraphOutcome` and `GraphClock` are about whole
  runs; `Schemas`, `Reducers`, `Budget` and `Sums` are what they rest on.
* **The evidence and citation chain** (`Extraction`, `Extracting`, `Planning`,
  `Keys`, `KeyContent`, `Identity`, `Normalizing`, `Verification`, `Catalogs`,
  `Markers`, `Citations`, `Synthesis`). Each agent's own code is modelled around
  an arbitrary model answer. `Grounding`, `Integrity` and `CitedReport` run them
  inside the graph, `Scores` follows the status of claims and `Subjects` what they
  are about: a run is genuine when every value its agents return is what that code
  makes of some answer. `WorstReplies` are such values for the longest run there is.
* **Source deduplication** (`Dedup` and the `Dedup...` modules): union-find with
  path halving, against the connected components of a graph that is never built.
* **Response cache and single-flight** (`MemoryCache`, `SingleFlight`).
* **Sessions and refresh rotation** (`Sessions`, `SessionRevocation`,
  `SessionOutcomes`, `SessionCauses`, `SessionRuns`, `Revocation`, `SignOut`).

`dafny verify dfyconfig.toml` checks everything.

## Conventions

Identifiers are natural numbers, compared as their string forms would be; a
derived identifier is an injective numbering of its name, within one run, standing
in for UUID5. Money is whole micro-dollars, which is what the source rounds to.
Time is an integer. Confidence is an ordered number, and containment is the
integer test that nine tenths of the smaller shingle set is shared. A map
parameter that is returned changed stands for a dictionary a function updates.

## Where the code and its documentation differ

* A marker directly before another is not counted, so `[999][1]` passes with one
  citation (`Markers.AdjacentMarkerIsNotSeen`); all are counted exactly when none
  has a bracket or a parenthesis directly behind it (`Markers.AllAreCounted`).
* Values with different numbers are not always two claims
  (`Identity.NumbersMerged`): values are told apart exactly by their runs of
  letters and digits (`Identity.ValuesAreTheirWords`), so a sign, a unit or a
  decimal point does not count.
* Claim identity tells every key with a letter or a digit from every other
  (`Identity.ContentIsUnmistakable`). Other keys collide, unless one fills its 300
  characters and could be parted at no colon (`Identity.WhenIdentityTellsApart`).
* A session that has been revoked can still be renewed by a request that had read
  it as live, and by nothing else (`SessionRevocation.RevokedGainsOnlyThroughLive`;
  `SessionRuns.RevokedIsRenewed` is a whole run). Its access tokens end with it
  exactly when the revocation commits within 49 seconds of the index being told
  (`SessionRuns.SafeWithinMargin`).
* The per-user session ceiling does not reach access tokens
  (`SessionRevocation.CeilingLeavesAccess`), and a durable revocation that fails
  leaves a reused family renewable (`SessionRuns.ReusedFamilyIsRenewed`).
* Signing other devices out reaches the fifty newest sessions
  (`SignOut.OnlyKeptStaysLive`).

## Model

| member | source | states |
|---|---|---|
| `GraphNodes.RunPlanner` | apps/api/app/agents/graph.py:244-308 | A plan is asked for only uncancelled, with no stop, with spend known and below its ceiling, with time, sources, searches and a round left, each said of the state; what is written is a plan of the next round, charged, or a stop with its caveat and nothing charged, its reason the first ceiling reached; and planning fails a run only in its first round. |
| `GraphNodes.RunResearcher` | apps/api/app/agents/graph.py:310-386 | The front of the reported sources that fits the allowance is kept, a cut is recorded with what was reported and only then; searches are charged in full and stay within the allowance plus the recorded excess; a failure is recorded and never raised. |
| `GraphNodes.RunCritic` | apps/api/app/agents/graph.py:426-472 | A critique that wants more either leaves spend known and something of every ceiling and a round, once its own call is counted, or comes with the stop that bars it, whose reason is the first ceiling reached; one that is satisfied stops nothing; a critic that fails always stops discovery. |
| `GraphNodes.RunValidator` | apps/api/app/agents/graph.py:593-630 | A repair is granted exactly when the draft of this revision failed and none has been granted, so there is never more than one. |
| `GraphRecords.NodeRecords` | apps/api/app/agents/graph.py:244-777 | Of every node: its agent is called exactly if cancellation, stop, ceilings and answer allow it; each field is written by its own agents only, with exactly what they returned, a draft stamped with the repairs granted and the stop's caveat; a refused or failed call is recorded with its round and nothing else is; and the clock is read after a call, and otherwise on entry. |
| `GraphRecords.StopSaysWhy` | apps/api/app/agents/graph.py:764-777 | Of every node: a stop is written exactly for a cancellation, a refused call, a planner or critic that failed, the first ceiling reached, or want of rounds, and its caveat gives that reason, what had been used by then, and what the critic still wanted if it was rounds that ran out. |
| `GraphRounds.RoundsAreAllowed` | apps/api/app/agents/graph.py:251-263 | Over any run: in every state from which another round would be planned, and whenever a planner is called, spend is known and below its ceiling, and time, sources, searches and a round are left. |
| `GraphRounds.RoundIsSentOut` | apps/api/app/agents/graph.py:634-669 | After the planner a round starts exactly if nothing has stopped the run and there is a plan, time, and a search and a source to give out, each subtask with its share and all the time left; otherwise the run goes on to the answer or, cancelled, ends. |
| `GraphRounds.RunStaysTimed` | apps/api/app/agents/graph.py:648-648 | In every reachable state a round about to start is given exactly the active time the run has left. |
| `GraphGathering.RunIsRecorded` | apps/api/app/agents/state.py:149-172 | Over any events, resumes included, nothing given is lost and nothing is there that was not given: subtasks, outcomes, failures and errors are what committed supersteps gave, in order; sources, evidence, claims and contradictions are that, merged by id. |
| `GraphGathering.GatheredIsLastGiven` | apps/api/app/agents/state.py:76-86 | Of a whole run: what is held under an id is exactly what an extractor, normalizer, verifier or contradiction check last returned under it. |
| `GraphGathering.SourcesAreFirstReports` | apps/api/app/agents/state.py:89-99 | Of a whole run: the sources are those researchers reported within their allowances, each as it was first reported. |
| `GraphGathering.StepConcludes` | apps/api/app/agents/graph.py:561-630 | Plan, critique, report and check each stand until their own agent gives another; a new draft leaves no check standing, and a plan starts the next round. |
| `GraphGathering.RunAnswers` | apps/api/app/agents/graph.py:476-535 | Over any run the answer is the one there was or else the first that a committed call drafted since; there is one only if some call drafted it. |
| `GraphGathering.DraftIsKept` | apps/api/app/agents/graph.py:532-535 | A draft the answerer returns is in the state, and in every later one. |
| `GraphTermination.StepAdvances` | apps/api/app/agents/graph.py:194-219 | Every committed superstep, of any node or round, keeps the run on course and brings it at least one superstep nearer the end by a measure over both loops. |
| `GraphTermination.RunAdvances` | apps/api/app/agents/graph.py:634-690 | Over any events, the supersteps committed and those still possible never exceed what was possible at first. |
| `GraphTermination.RunEnds` | apps/api/app/agents/budget.py:40-50 | For every mode, ceiling and sequence of results, failures, refusals, cancellations, crashes and resumes: at most 7n+5 supersteps (9 for quick) are committed, a run that has taken them has ended, and that is below the recursion limit, by exactly three for a run in rounds, although its tail leaves the answerer out. |
| `GraphWorstCase.BoundIsReached` | apps/api/app/agents/budget.py:139-149 | That bound is exact: for every mode and all ceilings some run takes every one of those supersteps, and each of its replies is one the run's own planner, extractor, normalizer, synthesizer and validator can give. |
| `Runtime.Runner.Stream` | apps/api/app/agents/runtime.py:225-279 | One invocation starts a run, or resumes it from its checkpoint as one more event of it, leaves exactly the state its supersteps come to, reports of every superstep what ran and the state after it, ends finished exactly when nothing is left to run, and never by the recursion limit. |
| `Runtime.AtMostMostSteps` | apps/api/app/agents/runtime.py:179-186 | Wherever a run is picked up, what it may still take is below the recursion limit given to each invocation. |
| `Graph.RunConcat` | apps/api/app/agents/runtime.py:191-196 | Interrupting a run anywhere and going on from its checkpoint comes to the same state as not interrupting it. |
| `GraphLedger.RoundWithinAllowances` | apps/api/app/agents/graph.py:344-386 | Whatever researchers report and in whatever order their writes fold, a round's sources stay within the allowances handed out and its searches within those plus the over-use it records. |
| `GraphLedger.StepBalances` | apps/api/app/agents/graph.py:752-762 | A superstep adds to cost and searches exactly what the agents it called reported, once each, whatever the fold order; an agent that was not called, failed or was refused adds nothing. |
| `GraphLedger.LedgerBalances` | apps/api/app/agents/state.py:106-107 | Conservation: over any run, recorded cost, searches and calls without a price are what there was plus the sum of what committed calls reported. |
| `GraphLedger.RunSpendsWhatIsReported` | apps/api/app/agents/state.py:166-172 | So from its start a run has spent exactly what its agents reported. |
| `GraphLimits.RoutedWithinRound` | apps/api/app/agents/graph.py:634-669 | A round is only dispatched from a state under its cost ceiling, no wider than the bound, and with allowances that fit in what is left of the search and source ceilings. |
| `GraphLimits.RunWithinCeilings` | apps/api/app/agents/budget.py:103-136 | In every reachable state the sources held are distinct and at most `max_sources`, and searches pass their ceiling only by recorded over-use and by searches reported outside research rounds. |
| `GraphLimits.SearchesWithinCeiling` | apps/api/app/agents/budget.py:103-136 | Where no agent but researchers reports searches, searches pass their ceiling by the over-use on record and by nothing else, over any run. |
| `GraphLimits.RunWithinSpend` | apps/api/app/agents/graph.py:251-308 | If no call costs more than c, recorded cost stays below `max_cost` + (width + 10)·c. |
| `GraphOutcome.RunKeeps` | apps/api/app/agents/state.py:125-130 | Over any events, resumes included: the first stop stays with its caveat unless a cancellation replaces it, every stop but a cancellation has a caveat that explains its reason, and a written answer never changes. |
| `GraphOutcome.StoppedRunSeeksNothing` | apps/api/app/agents/graph.py:244-260 | Once a stop is in the state no planner, researcher or critic is called again; once it is a cancellation, no agent is. |
| `GraphOutcome.CancelledRunEnds` | apps/api/app/agents/graph.py:729-735 | A cancelled run calls nothing more, raises nothing, and reaches the end within five supersteps. |
| `GraphOutcome.FinishedRunIsReported` | apps/api/app/agents/graph.py:561-591 | A run that ends uncancelled has a report carrying exactly the caveat of its final stop, and a check of that same revision, which passed or is of the one repair there is. |
| `GraphOutcome.AtMostTwoDrafts` | apps/api/app/agents/graph.py:680-690 | No run commits more than two synthesizer calls. |
| `GraphClock.InvocationTelescopes` | apps/api/app/agents/schemas.py:288-293 | Over one invocation active time grows by exactly max(anchor, readings) - anchor, where anchor is the later of the clock's instant and the moment the run was picked up, in whatever order, even backwards, the clock was read. |
| `GraphClock.UninterruptedTime` | apps/api/app/agents/schemas.py:288-293 | Uninterrupted, a run's active time is the distance from its start to its latest reading. |
| `GraphClock.DowntimeIsNotCounted` | apps/api/app/agents/schemas.py:268-278 | Picking a run up changes nothing in it, and what the next invocation adds is at most the time from its own start to its latest reading. |
| `GraphClock.ElapsedNeverDecreases` | apps/api/app/agents/state.py:110-122 | Active time never decreases, over any events. |
| `Reducers.LatestClockIsJoin` | apps/api/app/agents/state.py:110-122 | Folding clock readings is associative, commutative and idempotent, and never loses time. |
| `Reducers.MergeById` | apps/api/app/agents/state.py:76-86 | The loops over a dictionary that keeps its keys in the order they came, read out in that order, come to the positional merge the other results are about. |
| `Reducers.PutAllKeeps` | apps/api/app/agents/state.py:76-86 | Merging keeps ids unique and every row in its first-seen place under its id; every row of the result was there or was written, and rows not rewritten stay. |
| `Reducers.PutAllWins` | apps/api/app/agents/state.py:76-86 | A written version replaces the stored one. |
| `Reducers.MergeSources` | apps/api/app/agents/state.py:89-99 | The loop that enters a source into such a dictionary only if it has no entry comes to the first-reporter merge the other results are about. |
| `Reducers.MergedSourcesGrow` | apps/api/app/agents/state.py:89-99 | Merging sources only appends: one entry per source, the first report of one stands, and nothing is there that was not reported. |
| `Budget.AllocationWithinBudget` | apps/api/app/agents/budget.py:103-136 | A round's allowances together never exceed what is left of either ceiling; each is at least one by type. |
| `Budget.AllocationByPriority` | apps/api/app/agents/budget.py:122-136 | A round is as wide as plan, bound and remaining budget allow, is empty exactly when nothing may be sent, and sends out the front of the plan reordered: high before medium before low, and as planned within one priority. |
| `Budget.SharesAreEven` | apps/api/app/agents/budget.py:129-135 | Everyone sent out has the same share of the searches and of the sources left, and the largest that all can have. |
| `Budget.LimitIsFirstReached` | apps/api/app/agents/budget.py:77-96 | Nothing is reported exactly while cost, runtime, sources and searches are each below their maximum and, between rounds, every call has a price; and of the ceilings that have been reached the first in the documented order is named. |
| `DedupForest.Find` | apps/api/app/evidence/dedup.py:127-131 | Terminates because links only point back in the list; returns the node's root, and halving the path leaves every node's root as it was. |
| `DedupForest.Union` | apps/api/app/evidence/dedup.py:133-150 | Comes to merging two components of the partition: the later root joins the earlier, the label becomes the weakest of both labels and of the rule that joined them, and nothing changes if they were one. |
| `DedupPasses.LinkByKey` | apps/api/app/evidence/dedup.py:152-164 | Linking each source to the first holder of its hash, or its URL, leaves exactly the components of all rules so far, with bottleneck labels. |
| `DedupPasses.LinkNearDuplicates` | apps/api/app/evidence/dedup.py:166-167 | So does the judgement pass over every ordered pair of long enough texts, and above the candidate ceiling it compares nothing. |
| `DedupPartition.MergedBottleneck` | apps/api/app/evidence/dedup.py:140-150 | A merge keeps every label the bottleneck of its component, because rules run strongest first and the labels of both merged roots are combined. |
| `Dedup.ClusterSources` | apps/api/app/evidence/dedup.py:111-189 | Clusters are exactly the connected components of same hash, same URL or contained text; each lists its members in fetch order from the earliest, clusters come in fetch order of their primaries, and the label is `exact_hash`, `canonical_url` or `near_duplicate` exactly when hashes alone, hashes and URLs but not hashes alone, or neither hold the cluster together. |
| `DedupUnique.ClusteringIsUnique` | apps/api/app/evidence/dedup.py:111-117 | That description has one solution: any two clusterings of the same sources are equal. |
| `DedupUnique.EachSourceOnce` | apps/api/app/evidence/dedup.py:112-116 | No source is left out of the clusters, and none is in two. |
| `DedupUnique.ClusterAgain` | apps/api/app/evidence/dedup.py:121-121 | Clustering the same sources given in another order gives the same clusters. |
| `DedupUnique.FirstAccessedLeads` | apps/api/app/evidence/dedup.py:112-116 | A cluster is known by the source of it that was accessed first, its others follow in that order, and clusters come in the order of the sources they are known by; of accesses at once the lower id is first. |
| `DedupGraph.NearDuplicatesShare` | apps/api/app/evidence/dedup.py:210-250 | Two texts are near duplicates exactly when each has at least 25 shingles and nine tenths of those of one of them are the other's too. |
| `DedupGraph.ShinglesAreTriples` | apps/api/app/evidence/dedup.py:233-240 | A shingle of a text is three words of it in a row, and all of those are. |
| `Planning.TaskKeyTellsApart` | apps/api/app/agents/planner.py:93-93 | Subtask keys of different rounds or positions differ. |
| `Planning.Planned` | apps/api/app/agents/planner.py:88-103 | Whatever was proposed, a plan has the front of the proposals, with their questions and priorities, as many as there are up to the planner's limit and twenty, under the keys of its own round and the goal given, and satisfies the plan validator. |
| `Planning.SourcesByTask` | apps/api/app/agents/extraction.py:514-530 | The grouping loop gives, for each subtask finished in this round that has sources, exactly the sources stored under its key, in order. |
| `Planning.ReadInOneRound` | apps/api/app/agents/extraction.py:514-530 | If outcomes are of subtasks of their own rounds and sources only grow, a source is read in one round at most. |
| `Extraction.Interleave` | apps/api/app/agents/extraction.py:168-206 | The nested loop with its set of seen chunks comes to reading row by row across subtasks, each chunk once. |
| `Extraction.PassagesAreRetrieved` | apps/api/app/agents/extraction.py:193-206 | A round's passages are retrieved chunks, no chunk twice. |
| `Extraction.SubtasksAreReadEvenly` | apps/api/app/agents/extraction.py:168-175 | The first n chunks of every subtask come before anything else, for every n, so a ceiling cuts subtasks evenly. |
| `Extraction.BatchesCutTheTail` | apps/api/app/agents/extraction.py:135-137 | The batches put together are the front of the passages, as many as the calls can read, and none is empty or larger than a call takes. |
| `Extraction.LocatedReadsBack` | apps/api/app/agents/extraction.py:461-486 | A quote becomes evidence exactly when it stands in the passage, and the span's offsets read back exactly the quote from the stored document. |
| `Extraction.ExtractBatch` | apps/api/app/agents/extraction.py:240-284 | What is kept is exactly what candidates quote of the passages they number: the quote and stance, where it first stands, under the passage's subtask, round, source and document; as many numbers are counted as not offered as there are of no passage, and everything else as not found. |
| `Extracting.ExtractedIsGrounded` | apps/api/app/agents/extraction.py:119-164 | Whatever models answer, every span of a round reads back from its document, is of a source that was retrieved, and is attributed to a subtask finished in that round. |
| `Extracting.ExtractedIsWhatIsQuoted` | apps/api/app/agents/extraction.py:149-164 | A round's evidence is exactly what the answers to its batches quote of the passages they number. |
| `Extracting.RetrievedAreRead` | apps/api/app/agents/extraction.py:168-206 | Every chunk retrieved for a subtask of the round that has sources is among the passages, and what is read is the first thirty-six of those. |
| `KeyContent.KeyIsItsWords` | apps/api/app/agents/extraction.py:449-458 | A normalised key is the runs of letters and digits of each part, lower case, joined and cut to length; only a key with no such run is kept as it stands. |
| `KeyContent.SameWordsSameKey` | apps/api/app/agents/extraction.py:449-456 | Keys that differ only in case, spacing or punctuation normalise to one, cut or not. |
| `KeyContent.CaseDoesNotMatter` | apps/api/app/agents/extraction.py:449-458 | Any key written with other capitals normalises to the same key, whether or not it has words. |
| `KeyContent.WordsReadBack` | apps/api/app/agents/extraction.py:449-458 | Reading the words off a key built from words gives exactly those words in their parts: normalising loses nothing else. |
| `KeyContent.KeysAreTheirWords` | apps/api/app/agents/extraction.py:449-458 | Two raw keys with words that are not cut normalise to one key if and only if they have the same words in the same parts. |
| `Keys.KeyHasColon` | apps/api/app/agents/extraction.py:457-458 | A normalised key contains a colon exactly when no letter or digit of the raw key survived and the text kept instead has one. |
| `Keys.AssertedValue` | apps/api/app/agents/extraction.py:429-446 | A value is kept only whole, with its spacing normalised, and exactly if it stands in the claim's own text, case ignored. |
| `Identity.AssertedIsWellSpaced` | apps/api/app/agents/extraction.py:429-446 | The values claims can have are exactly the texts whose whitespace is single spaces inside: no other is ever kept, and each of these is. |
| `Identity.ValuesAreTheirWords` | apps/api/app/agents/extraction.py:386-407 | When two values about one subject are two claims, exactly: for all values that are not cut, they are one claim if and only if they have the same words in the same parts or, having none, differ at most in case and outer spacing. |
| `Identity.NumbersMerged` | apps/api/app/agents/extraction.py:394-399 | So the documented promise, that different numbers stay two claims, fails for a sign, a unit and a decimal point: -5 and 5, 5% and 5, 1.5 and 1 5 are one claim each. |
| `Identity.ContentIsUnmistakable` | apps/api/app/agents/extraction.py:386-407 | If the raw key has a letter or a digit then, whatever the other key and both values, the ids are equal if and only if the keys and the normalised values are. |
| `Identity.WhenIdentityTellsApart` | apps/api/app/agents/extraction.py:386-407 | The exact condition on the raw key alone: claims about it, with any values claims can have, share an id with no other assertion if and only if it has a letter or a digit or, having none, fills all 300 characters and has no colon at which it could be parted into another key and the start of a value. |
| `Identity.LongerKeyCollides` | apps/api/app/agents/extraction.py:406-407 | Every shorter key without a letter or a digit does collide: with value `:` it has the id of the key one colon longer without a value. |
| `Normalizing.UnclaimedIsNew` | apps/api/app/agents/extraction.py:533-550 | What is offered to the normalizer is stored evidence no claim cites, and all of it unless more than one call takes. |
| `Normalizing.UnclaimedIsOrdered` | apps/api/app/agents/catalog.py:111-123 | It is offered by source, and through each source in order. |
| `Normalizing.HeldBackIsLater` | apps/api/app/agents/catalog.py:111-123 | What is held back for a later call comes after all of it in that order. |
| `Normalizing.Normalize` | apps/api/app/agents/extraction.py:300-380 | The loop over proposals with its dictionary of pending claims comes to folding one proposal after another, and fails as a whole when a proposal with evidence has a blank key; every claim it returns is worded as a proposal is and cites each span that proposal numbers, has the status of the claim stored under its id or else is a candidate, and has the value asserted or else the one it had. |
| `Normalizing.ClaimsAreProposed` | apps/api/app/agents/extraction.py:330-366 | Nothing is returned that was not proposed: every claim has the wording, confidence and normalised key of a proposal that numbers some span offered, and cites each span it numbers, counting from the first, unless it is full. |
| `Normalizing.FoundAgainKeeps` | apps/api/app/agents/extraction.py:343-366 | A claim found again keeps the status it is stored with, and a new one is a candidate; its value is what its proposal asserts or, if that asserts none, one asserted before or stored, and a stored value is never given up for none. |
| `Normalizing.MergedExtends` | apps/api/app/agents/extraction.py:567-574 | Merged evidence begins with all the claim had, adds only what is cited, and has between one and fifty ids. |
| `Normalizing.PreviousIsThere` | apps/api/app/agents/extraction.py:410-426 | The claim a proposal finds again is stored or pending, and has the proposal's identity or, for a proposal without a value, its key. |
| `Normalizing.NormalizedIsDependable` | apps/api/app/agents/extraction.py:330-366 | Whatever is proposed: every claim returned starts with all the evidence it had and rests on stored evidence only, and no id occurs twice. |
| `Verification.Verify` | apps/api/app/agents/verification.py:73-117 | What the loop over verdicts returns is exactly every claim of the catalogue whose number some verdict gives, counting from the first, with the status and confidence of the last verdict giving it and nothing else changed. |
| `Verification.LastVerdictStands` | apps/api/app/agents/verification.py:88-103 | The same of the fold the loop comes to: nothing else is returned, and every claim some verdict names is. |
| `Verification.VerifiedAreRescored` | apps/api/app/agents/verification.py:95-103 | Verification returns claims of the run with nothing changed but status and confidence, no id twice. |
| `Verification.FindContested` | apps/api/app/agents/verification.py:189-200 | Grouping by key finds exactly the claims whose key another claim has too. |
| `Verification.FindContradictions` | apps/api/app/agents/verification.py:133-186 | The loop over proposed pairs records exactly the disagreements between two different contested claims of one key that a pair numbers, the lower id first, under their key, with the reason the last such pair gives. |
| `Verification.EveryPairIsRecorded` | apps/api/app/agents/verification.py:158-186 | The same of the fold the loop comes to: nothing else is recorded, and every such pair is, under the id of its two claims. |
| `Verification.ContradictionsAreLinked` | apps/api/app/agents/verification.py:158-173 | Every contradiction found links two different stored claims with its key, the lower id first, under the id of that pair, and no id occurs twice. |
| `Verification.OneIdPerPair` | apps/api/app/agents/verification.py:203-219 | Two contradictions, recorded in whichever rounds, have one id if and only if they are between the same two claims, named in either order. |
| `Verification.OncePerPair` | apps/api/app/agents/verification.py:203-219 | In a run's list two recorded contradictions are one if and only if they are between the same two claims. |
| `Scores.OnlyVerifierChangesStatus` | apps/api/app/agents/extraction.py:355-366 | Over any events of the run's own agents, crashes and resumes included: until a verifier is called every claim keeps its status, and every claim that is new is a candidate. |
| `Scores.VerifierJudges` | apps/api/app/agents/verification.py:73-117 | When one is, every stored claim is afterwards as the last verdict that names it says, and unchanged if none does. |
| `Catalogs.Resolve` | apps/api/app/agents/catalog.py:81-91 | The loop splits numbers, in order, into the items they count to from the start of the catalogue and the numbers that are beyond it or zero. |
| `Catalogs.ResolvedIsOffered` | apps/api/app/agents/catalog.py:75-91 | Every number is accounted for: the ones in range come, in order, to the item that far into the catalogue, an item is found exactly if its number was given, and the rest are invented. |
| `Catalogs.AllNumbersResolve` | apps/api/app/agents/catalog.py:75-91 | Resolving every number there is, in order, gives back the catalogue. |
| `Catalogs.CatalogIgnoresArrival` | apps/api/app/agents/catalog.py:126-141 | The claim catalogue does not depend on the order claims arrived in. |
| `Catalogs.CatalogOfClaims` | apps/api/app/agents/catalog.py:126-141 | It holds claims of the run, as many as fit. |
| `Catalogs.CutByMerit` | apps/api/app/agents/catalog.py:138-164 | A claim is cut only if every claim that is kept is to be kept ahead of it: refuted before contested before verified before candidate, then the more confident, then the lower id. |
| `Catalogs.CatalogIsOrdered` | apps/api/app/agents/catalog.py:140-141 | The catalogue runs through the keys in dictionary order, and through the claims of one key by id. |
| `Catalogs.SameKeysAreAdjacent` | apps/api/app/agents/catalog.py:127-131 | Claims with one key are numbered next to each other. |
| `CitedReport.CatalogStaysWhileWriting` | apps/api/app/agents/citations.py:68-68 | From the moment the answer is due, whatever happens and however many drafts are written, the catalogue the validator rebuilds is the one the synthesizer numbered. |
| `Markers.FindCitedNumbers` | apps/api/app/agents/citations.py:122-139 | The leftmost, non-overlapping scan finds exactly the markers that, at whatever position, are not followed by `(` or `[`. |
| `Markers.FoundIsCited` | apps/api/app/agents/citations.py:122-139 | A number is found in a text exactly if somewhere in it stand a bracket, one to three digits that say it, a bracket, and then neither a parenthesis nor a bracket. |
| `Markers.WrittenIsRead` | apps/api/app/agents/citations.py:122-139 | A number up to 999 written in brackets, with neither a parenthesis nor a bracket behind it, is read back as itself. |
| `Markers.CitedInJoined` | apps/api/app/agents/synthesis.py:171-175 | Scanning two texts joined by a blank line finds what scanning each finds. |
| `Markers.AdjacentMarkerIsNotSeen` | apps/api/app/agents/citations.py:135-138 | The documentation says every marker counts; one directly before another does not: `[999][1]` counts only 1. |
| `Markers.AllAreCounted` | apps/api/app/agents/citations.py:122-139 | Every marker of a text is counted if and only if none has a `(` or a `[` directly behind it; otherwise fewer are. |
| `Citations.Validate` | apps/api/app/agents/citations.py:60-119 | The validator's loops and counters come to its verdict over all markers of all sections, with rejections counted per reason and accounted for. |
| `Citations.AcceptedResolves` | apps/api/app/agents/citations.py:142-168 | A marker is accepted exactly when it names a catalogued claim that is stored and has a stored span of a retrieved source. |
| `Citations.PassesWhenAllResolve` | apps/api/app/agents/citations.py:80-95 | A draft passes exactly when every marker resolves. |
| `Citations.RejectedWhereItBreaks` | apps/api/app/agents/citations.py:142-168 | A citation is rejected for the first link that does not hold: the catalogue, the run's claims, their evidence, its sources. |
| `Citations.CheckSays` | apps/api/app/agents/citations.py:80-119 | A check is of the draft's revision, lists the numbers that do not resolve in order, has no instructions exactly if there are none, and counts under each reason exactly the citations that break there. |
| `Citations.OnlyInventedNumbersAreRejected` | apps/api/app/agents/citations.py:156-168 | Over well-founded records a marker is rejected exactly when its number is not in the catalogue, and for that reason. |
| `Citations.PassesWhenNumbersExist` | apps/api/app/agents/citations.py:60-119 | Over well-founded records a draft passes exactly when every number cited lies in 1..catalogue size, and no other reason for rejection occurs. |
| `Synthesis.FindCitedClaims` | apps/api/app/agents/synthesis.py:185-197 | The loop comes to the claims whose numbers the text cites, counting from the first of the catalogue: none else, none twice, in first-cited order, and all of them unless the list is full. |
| `Synthesis.KeepSections` | apps/api/app/agents/synthesis.py:147-182 | Merging blocks by kind in a dictionary and sorting comes to one section per written kind: all its blocks' text, its first heading, and the claims that whole text cites. |
| `Synthesis.CitedInBoth` | apps/api/app/agents/synthesis.py:171-178 | Merging two blocks' cited claims, capped, gives the claims their joined text cites, capped. |
| `Synthesis.SectionsReadable` | apps/api/app/agents/synthesis.py:147-182 | Sections come in the order of the enumeration, no kind twice, neither of the two kinds that are assembled, each listing exactly the claims its text cites. |
| `Synthesis.NothingWrittenIsLost` | apps/api/app/agents/synthesis.py:150-153 | Every block of a kind that may be written is in that kind's section. |
| `Integrity.RunSound` | apps/api/app/agents/state.py:149-158 | Over any events of the run's own agents, crashes and resumes included: everything gathered stays grounded, outcomes and sources are only added, and every claim stays under its id with its old evidence a prefix of its new. |
| `Integrity.RunIsGrounded` | apps/api/app/agents/extraction.py:300-380 | In every reachable state no id is held twice, spans read back and are of retrieved sources, every claim rests on stored spans, and every contradiction is between two different stored claims. |
| `Integrity.SourceIsReadInOneRound` | apps/api/app/agents/extraction.py:514-530 | Over a whole run, and its continuation, a source is read for evidence in one round at most. |
| `Grounding.MergedClaimsGrow` | apps/api/app/agents/extraction.py:343-366 | Merging dependable claims keeps every stored claim, with its evidence as a prefix. |
| `Subjects.SubjectsStay` | apps/api/app/agents/extraction.py:386-407 | Over any events in which no proposed key is made of signs with a colon among them: every claim has the id of its key and value, its key never changes, and every contradiction stays between two stored claims about its subject. |
| `Subjects.OneClaimPerAssertion` | apps/api/app/agents/extraction.py:390-399 | In every reachable state of such a run two claims are one if and only if they assert the same normalised value of the same key, so two claims about one subject differ in value. |
| `Subjects.NothingCitedIsLost` | apps/api/app/agents/extraction.py:343-351 | However the proposals of one answer find each other's claims again, every span any of them numbers is cited in the end by a claim of its key, unless that holds the most a claim may. |
| `Subjects.CollidingProposalTakesOver` | apps/api/app/agents/extraction.py:345-350 | Without that condition a proposal about one subject takes over the claim of another, for every key without letters or digits that has room for a colon. |
| `CitedReport.FinishedReportHolds` | apps/api/app/agents/citations.py:1-25 | The whole chain: a run of its own agents that ends uncancelled has sections that each list exactly the claims they cite; its check passes exactly when every number cited is in the catalogue and rejects for no other reason; and if it passes, every number leads to spans that read back from their documents and are of sources the run retrieved. |
| `MemoryCache.InMemoryCache.Lookup` | apps/api/app/cache/backend.py:72-81 | A lookup hits exactly when the key is held and has not expired, and then returns the latest write of the key that was not taken back. |
| `MemoryCache.InMemoryCache.Store` | apps/api/app/cache/backend.py:83-87 | A store, with its eviction loop, comes to the newest entry last and the oldest dropped, never above the bound. |
| `MemoryCache.NeverTooMany` | apps/api/app/cache/backend.py:60-94 | After any operations there are at most `max_entries` entries, no key twice. |
| `MemoryCache.HitIsLatestWrite` | apps/api/app/cache/backend.py:72-81 | After any operations a hit is the latest write of its key, unexpired, not deleted or cleared since. |
| `MemoryCache.EvictedOnlyByUse` | apps/api/app/cache/backend.py:83-87 | A key that was set and not deleted, cleared or found expired since is gone only if at least `max_entries` distinct other keys were used since its last set or hit. |
| `SingleFlight.OneLeaderPerKey` | apps/api/app/cache/single_flight.py:41-67 | Under any interleaving at most one caller runs a loader for a key, and the in-flight table holds exactly those callers. |
| `SingleFlight.NoWaiterIsStranded` | apps/api/app/cache/single_flight.py:47-51 | Whoever a waiter waits for is still running for the same key, or has an outcome for it. |
| `SingleFlight.CallersGetLoadedValues` | apps/api/app/cache/store.py:92-121 | With any evictions, expiries, unreadable entries and backend failures: every successful call returns something a loader returned for its key, and every woken waiter has its leader's outcome. |
| `SingleFlight.CacheAgreesWithLoader` | apps/api/app/cache/store.py:92-121 | If loaders are a function of the key, every successful read through the cache gives that function's value. |
| `SingleFlight.StoredIsServed` | apps/api/app/cache/store.py:106-112 | A value that is stored is served as it is, and nothing else changes. |
| `SingleFlight.FlightIsShared` | apps/api/app/cache/single_flight.py:47-67 | Whoever waits for a call has what it loads, which is loaded once, stored if the backend keeps it, and no longer in flight. |
| `SingleFlight.FailureIsShared` | apps/api/app/cache/single_flight.py:55-67 | A loader that raises fails those who wait too, stores nothing, and leaves the key free. |
| `SingleFlight.OnlyWhoGivesUpHas` | apps/api/app/cache/single_flight.py:47-51 | Over any run a caller has given up only if it did so itself. |
| `Revocation.IndexOutlivesToken` | apps/api/app/auth/revocation.py:123-130 | A token requested no more than 49 seconds after a revocation is past its expiry and leeway by the time the index forgets it. |
| `Revocation.MarginIsExact` | apps/api/app/auth/tokens.py:186-197 | At the moment the index forgets a revocation a token is still fresh if and only if it was requested in the fiftieth second after the revocation's, or later. |
| `Revocation.InMemoryRevocationStore.Revoke` | apps/api/app/auth/revocation.py:72-76 | Writing sweeps what has lapsed, and loses no revocation that has not. |
| `Revocation.InMemoryRevocationStore.IsRevoked` | apps/api/app/auth/revocation.py:78-86 | A session is revoked exactly while its latest revocation has not lapsed. |
| `Sessions.FamiliesAreChains` | apps/api/app/auth/sessions.py:139-221 | Under any interleaving of sign-ins, refreshes and revocations all tokens of a family are in one line, each once, from its first to its newest, each exchanged for the next and for nothing else; exchanges are one to one, a token is used exactly when it was exchanged, and a family has at most one unused token. |
| `SessionOutcomes.RefreshOutcome` | apps/api/app/auth/sessions.py:139-221 | A refresh nobody interferes with, of an unused token, is granted exactly if the token is known, not revoked and not expired, its session is live and its user has an account; granted, the token is used, its one successor is of its session and family and expires with the session, and there is one access token; refused, nothing is written. |
| `SessionOutcomes.ReuseOutcome` | apps/api/app/auth/sessions.py:162-187 | A used token presented again is reuse, even if it is revoked or has run out: refused, the index told of its session, and, if the durable revocation is kept, that session and every token of the family revoked, and nothing else written. |
| `SessionOutcomes.LateClaimIsRefused` | apps/api/app/auth/sessions.py:192-196 | A token used by someone else between being presented and being marked is refused, and nothing is written. |
| `SessionRevocation.NobodyElseComesLive` | apps/api/app/auth/sessions.py:197-202 | Once a revocation has committed, no request that had not already read the session as live ever does. |
| `SessionRevocation.RevokedIsNeverRenewed` | apps/api/app/auth/sessions.py:192-202 | From when no such request is left, a revoked session gets no refresh token and no access token again, whatever happens. |
| `SessionRevocation.LiveIsRenewed` | apps/api/app/auth/sessions.py:192-221 | A request that has read the session as live gives it a new refresh token and an access token by committing, although the session has been revoked meanwhile. |
| `SessionRevocation.RevokedGainsOnlyThroughLive` | apps/api/app/auth/sessions.py:192-221 | The exact condition: some continuation gives a revoked session a token of either kind if and only if a request that had read it as live has yet to commit. |
| `SessionRevocation.RevokedGainsOnePerLive` | apps/api/app/auth/sessions.py:192-221 | From the moment a revocation has committed, whatever happens: the session gets at most one refresh token for each request that had read it as live and not committed, and no access token but of one of those requests. |
| `SessionRuns.RevokedIsRenewed` | apps/api/app/auth/sessions.py:104-109 | That state is reached, from nothing: while a refresh has read its session as live, another sign-in passes the ceiling and revokes the session; the refresh then commits, and the revoked session has a new unused token. |
| `SessionRevocation.IndexedAccessIsRefused` | apps/api/app/auth/sessions.py:223-230 | In every reachable state, while the index can be read, an access token requested no more than 49 seconds after the index was told of its session is refused: by the index, and after that by its expiry. |
| `SessionRevocation.RevokedSessionIsOver` | apps/api/app/auth/sessions.py:232-248 | If a session's revocation committed within that margin of the index being told, every access token of it is refused by a readable index, whenever issued. |
| `SessionCauses.RevokedOnlyByOwn` | apps/api/app/auth/sessions.py:232-248 | Over any run from nothing, a session comes to be revoked only by a sign-in of its own user over the ceiling, by a sign-out its own user began, or by the reuse of one of its tokens; and the index is told of it only by the last two. |
| `SessionCauses.TokenRevokedOnlyByOwn` | apps/api/app/db/repositories/refresh_token.py:148-176 | Over any run from nothing, a refresh token comes to be revoked only by a sign-out of its session that its own user began, or where a token of its family was used and presented again. |
| `SessionOutcomes.StrangerIsRefused` | apps/api/app/db/repositories/session.py:100-115 | A sign-out of somebody else's session, or of one revoked already, is refused, and sessions, tokens, locks and index are as they were. |
| `SessionOutcomes.OwnSignOut` | apps/api/app/auth/sessions.py:232-248 | A user's own sign-out nobody gets in the way of is granted: the row, every token of the session and the index are written, and nothing else. |
| `SessionRuns.LateCommitLeavesAccess` | apps/api/app/auth/sessions.py:232-248 | A run for every token lifetime: a sign-out looks up the session's tokens while a refresh has its only one marked, waits, tells the index, and commits one millisecond past the margin; the token that refresh created, which the sign-out does not hold, is exchanged in between, and its access token is accepted once the index has forgotten. |
| `SessionRuns.SafeWithinMargin` | apps/api/app/auth/sessions.py:232-248 | The exact margin over whole runs: no access token of a session revoked within a given delay of the index being told is ever accepted, in any run, if and only if that delay is at most 49 seconds. |
| `SessionRevocation.UnreadIsAccepted` | apps/api/app/auth/revocation.py:103-118 | When the index cannot be read, or was never told of the session, an access token is refused by nothing but its expiry. |
| `SessionRevocation.ReuseRevokesFirst` | apps/api/app/auth/sessions.py:165-190 | Reuse revokes the family's tokens and the session before it tells the index, so the margin is not needed there. |
| `SessionRevocation.LostRevocationLeavesRenewal` | apps/api/app/db/repositories/refresh_token.py:148-176 | If the durable revocation of a reused family fails, the failure is swallowed and the newest token can still be exchanged. |
| `SessionRuns.ReusedFamilyIsRenewed` | apps/api/app/db/repositories/refresh_token.py:148-176 | From nothing: sign in, refresh, present the used token again, fail the durable revocation; the reuse is refused and the index told, and the newest token is exchanged, of a session that is not revoked. |
| `SessionRevocation.CeilingLeavesAccess` | apps/api/app/auth/sessions.py:106-109 | A session revoked by the per-user ceiling still has its access token accepted, because only its row is written. |
| `SignOut.RevokeOthers` | apps/api/app/auth/sessions.py:250-260 | The loop signs out every listed session of the user but the one kept: exactly their rows, all their refresh tokens and their index entries are written, nothing else is, and, where ids are unique, it counts every one of them. |
| `SignOut.OnlyKeptStaysLive` | apps/api/app/db/repositories/session.py:85-98 | Afterwards only the kept session is live exactly when every live session beyond the fifty newest is the kept one. |
| `SignOut.FewAreAllReached` | apps/api/app/db/repositories/session.py:85-98 | With at most fifty live sessions that is always so. |
| `SignOut.LeftOutAreOldest` | apps/api/app/db/repositories/session.py:85-98 | Of more than fifty live sessions the fifty created last are listed. |
| `SignOut.SignedOutEverywhere` | apps/api/app/auth/sessions.py:232-260 | A live session whose row was revoked has all its refresh tokens revoked and an index entry; one that stays live keeps its tokens as they were. |

## Left out

- Subjects.SubjectsStay: asks that no proposed key be made of signs with a colon among them, because there the source's claim ids collide; Subjects.CollidingProposalTakesOver shows it.
- SessionRevocation.RevokedSessionIsOver: asks that the revocation commit within 49 seconds of the index being told, because the source writes the index before its transaction commits; SessionRuns.LateCommitLeavesAccess is the run that fails beyond that.
- SessionRevocation.RevokedIsNeverRenewed: speaks of the moment no request that had read the session as live is left, because the source reads the session without locking it; SessionRuns.RevokedIsRenewed is a run in which such a request still renews it, and SessionRevocation.RevokedGainsOnePerLive bounds what they can add.
- SessionRevocation.IndexedAccessIsRefused: assumes the index can be read; the Redis store of revocation.py:103-118 answers that nothing is revoked when it cannot be, and then only expiry refuses (SessionRevocation.UnreadIsAccepted).
- GraphLimits.RunWithinCeilings: counts searches reported by agents other than researchers separately, because nothing in the graph limits them; where they report none, GraphLimits.SearchesWithinCeiling holds.
- MemoryCache.EvictedOnlyByUse: is one-directional, because a key may survive more uses than the bound when others were deleted meanwhile.
- A superstep's writes commit together or not at all: the checkpointer keeping the writes of researchers that finished before a sibling raised is not modelled.
- A recorded allowance excess, a coverage caveat and a repair instruction are modelled by what they record, not by their text.
- Agents' prompts, token counts, model routing, budget refusal inside a call, timeouts, logging, tracing, streaming of the answer, and recording of results.
- The retriever and the document store: a chunk is assumed to be stored text of a source it was asked for (`Extracting.Honest`); stored documents do not change.
- Letter case outside ASCII, and digits other than 0 to 9 in markers; whitespace is Python's.
- Subtask channels, rationales, the critic's and answerer's own code, and the source, subtask, evidence and contradiction catalogues.
- Cluster identifiers, and case-folding and splitting a source's text into words.
- SingleFlight and Sessions are step machines over values, not classes, because what matters is how steps of different callers interleave.
- The cache's key hashing, encodings, size ceiling, observers and Redis backend: a stored payload decodes to what was encoded or is unreadable, and may vanish at any time.
- The clock readings of a sign-out's index writes are parameters (`lapsesAt`), and its writes are taken as done one session at a time.
- Which sessions the ceiling picks, session fields a person sees, cookies, passwords, federated sign-in, signatures and hashes, and every claim of a token but its expiry and session. That a verifier accepts a token up to its leeway after `exp` is taken from section 4.1.4 of RFC 7519; the JWT library is not part of this model.
- Row locks other than those a refresh and a sign-out hold on refresh tokens, and a sign-out taking its locks one by one rather than all once free. Leaving them out allows more interleavings, not fewer, so whatever holds of every run here holds with them; the runs exhibited in `SessionRuns` never write a row another open transaction has written.
- The worker, rate limits, retrieval ranking, persistence of results, the HTTP interface, evaluation, and the frontend.
