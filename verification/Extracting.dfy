/** One round of extraction, from the sources a round found to the evidence it
    adds (`EvidenceAgent.extract` in `agents/extraction.py`). */
module Extracting {
  import opened Wrappers
  import opened Schemas
  import opened Reducers
  import opened Catalogs
  import opened Finding
  import opened Flattening
  import opened Extraction
  import opened Planning

  datatype AnswerValue = AnswerValue(candidates: seq<Candidate>, ids: seq<Id>) {
    predicate Named() {
      |ids| == |candidates|
    }
  }

  /** What a model answered to one batch, and the new ids for what is kept. */
  type Answer = a: AnswerValue | a.Named() witness AnswerValue([], [])

  /** What came from outside: the chunks retrieved for each subtask, and the
      answers to each batch. */
  datatype Calls = Calls(retrieved: map<string, seq<Chunk>>, answers: seq<Answer>)

  function Labelled(chunks: seq<Chunk>, key: string, iteration: nat): (passages: seq<Passage>)
    ensures |passages| == |chunks|
  {
    seq(|chunks|, i requires 0 <= i < |chunks| => Passage(chunks[i], key, iteration))
  }

  function ChunksFor(calls: Calls, key: string): seq<Chunk> {
    if key in calls.retrieved then calls.retrieved[key] else []
  }

  function PassagesOf(keys: seq<string>, calls: Calls, iteration: nat): (perTask: seq<seq<Passage>>)
    ensures |perTask| == |keys|
  {
    seq(|keys|, t requires 0 <= t < |keys| => Labelled(ChunksFor(calls, keys[t]), keys[t], iteration))
  }

  function BatchesOf(completed: seq<TaskOutcome>, sources: seq<SourceRef>, iteration: nat,
                     calls: Calls): seq<seq<Passage>> {
    var keys := TasksRead(completed, sources, iteration);
    Batches(Interleaved(PassagesOf(keys, calls, iteration)), PASSAGES_PER_CALL, MAX_EXTRACTION_CALLS)
  }

  function Answered(batches: seq<seq<Passage>>, answers: seq<Answer>): (parts: seq<seq<EvidenceItem>>)
    ensures |parts| == |batches|
  {
    seq(|batches|, b requires 0 <= b < |batches| =>
      if b < |answers| then ExtractedFrom(batches[b], answers[b].candidates, answers[b].ids) else [])
  }

  /** The evidence of a round. */
  function Extracted(completed: seq<TaskOutcome>, sources: seq<SourceRef>, iteration: nat,
                     calls: Calls): seq<EvidenceItem> {
    Flattened(Answered(BatchesOf(completed, sources, iteration, calls), calls.answers))
  }

  // --- what a round's evidence rests on ----------------------------------------------------------

  /** The retriever returns stored text, and only of the sources it was asked
      to look in. */
  predicate HonestFor(documents: map<Id, string>, sources: seq<SourceRef>, calls: Calls, key: string) {
    forall i :: 0 <= i < |ChunksFor(calls, key)| ==>
      var chunk := ChunksFor(calls, key)[i];
      Faithful(documents, chunk) && Retrieved(SourcesOf(sources, key), chunk.sourceId)
  }

  predicate Honest(documents: map<Id, string>, sources: seq<SourceRef>, calls: Calls) {
    forall key :: key in calls.retrieved ==> HonestFor(documents, sources, calls, key)
  }

  lemma {:induction false} ExtractedFromPassage(batch: seq<Passage>, candidates: seq<Candidate>, ids: seq<Id>,
                                                e: EvidenceItem)
    returns (candidate: Candidate, passage: Passage, id: Id)
    requires |ids| == |candidates| && e in ExtractedFrom(batch, candidates, ids)
    ensures passage in batch && Located(candidate, passage, id) == Some(e)
  {
    var n := |candidates| - 1;
    if e in ExtractedFrom(batch, candidates[..n], ids[..n]) {
      candidate, passage, id := ExtractedFromPassage(batch, candidates[..n], ids[..n], e);
    } else {
      candidate, passage, id := candidates[n], Get(batch, candidates[n].passage).value, ids[n];
    }
  }

  lemma BatchIsOfPassages(passages: seq<Passage>, b: nat, p: Passage)
    requires b < |Batches(passages, PASSAGES_PER_CALL, MAX_EXTRACTION_CALLS)|
    requires p in Batches(passages, PASSAGES_PER_CALL, MAX_EXTRACTION_CALLS)[b]
    ensures p in passages
  {
    FlattenHolds(Batches(passages, PASSAGES_PER_CALL, MAX_EXTRACTION_CALLS), b, p);
    BatchesCutTheTail(passages, PASSAGES_PER_CALL, MAX_EXTRACTION_CALLS);
  }

  lemma {:induction false} SourcesOfAreSources(sources: seq<SourceRef>, key: string)
    ensures forall ref :: ref in SourcesOf(sources, key) ==> ref in sources && ref.taskKey == key
  {
    if sources != [] {
      SourcesOfAreSources(sources[..|sources| - 1], key);
    }
  }

  lemma FoundForSubtask(sources: seq<SourceRef>, key: string, id: Id)
    requires Retrieved(SourcesOf(sources, key), id)
    ensures Retrieved(sources, id)
  {
    SourcesOfAreSources(sources, key);
    var i := IndexOf(SourceIdOf, SourcesOf(sources, key), id).value;
    assert SourcesOf(sources, key)[i] in SourcesOf(sources, key);
    var k :| 0 <= k < |sources| && sources[k] == SourcesOf(sources, key)[i];
    assert SourceIdOf(sources[k]) == id;
  }

  /** A passage that is read was retrieved for a subtask of this round. */
  lemma PassageIsOfRound(completed: seq<TaskOutcome>, sources: seq<SourceRef>, iteration: nat, calls: Calls, p: Passage)
    requires p in Interleaved(PassagesOf(TasksRead(completed, sources, iteration), calls, iteration))
    ensures DoneIn(completed, iteration, p.taskKey) && p.iteration == iteration
    ensures p.chunk in ChunksFor(calls, p.taskKey)
  {
    var keys := TasksRead(completed, sources, iteration);
    var perTask := PassagesOf(keys, calls, iteration);
    PassagesAreRetrieved(perTask);
    assert OfSomeTask(perTask, p);
    var t :| 0 <= t < |perTask| && p in perTask[t];
    TasksReadAreDone(completed, sources, iteration);
    assert keys[t] in keys;
    var i :| 0 <= i < |perTask[t]| && perTask[t][i] == p;
    assert p.chunk == ChunksFor(calls, keys[t])[i];
  }

  /** Every span of a round's evidence reads back from the stored document, is
      of a source that was retrieved, and is attributed to a subtask of that
      round, whatever the models answered. */
  lemma ExtractedIsGrounded(documents: map<Id, string>, completed: seq<TaskOutcome>, sources: seq<SourceRef>,
                            iteration: nat, calls: Calls, e: EvidenceItem)
    requires Honest(documents, sources, calls)
    requires e in Extracted(completed, sources, iteration, calls)
    ensures ReadsBack(documents, e) && Retrieved(sources, e.sourceId)
    ensures e.iteration == iteration && DoneIn(completed, iteration, e.taskKey)
  {
    var batches := BatchesOf(completed, sources, iteration, calls);
    var b := FlattenFrom(Answered(batches, calls.answers), e);
    var candidate, p, id := ExtractedFromPassage(batches[b], calls.answers[b].candidates, calls.answers[b].ids, e);
    BatchIsOfPassages(Interleaved(PassagesOf(TasksRead(completed, sources, iteration), calls, iteration)), b, p);
    PassageIsOfRound(completed, sources, iteration, calls, p);
    var i :| 0 <= i < |ChunksFor(calls, p.taskKey)| && ChunksFor(calls, p.taskKey)[i] == p.chunk;
    assert HonestFor(documents, sources, calls, p.taskKey);
    LocatedReadsBack(documents, candidate, p, id);
    FoundForSubtask(sources, p.taskKey, p.chunk.sourceId);
  }

  // --- and what of it there is -------------------------------------------------------------------

  /** A round's evidence is exactly what the answers to its batches quote of the
      passages they number. */
  lemma ExtractedIsWhatIsQuoted(completed: seq<TaskOutcome>, sources: seq<SourceRef>, iteration: nat, calls: Calls,
                                e: EvidenceItem)
    ensures var batches := BatchesOf(completed, sources, iteration, calls);
            e in Extracted(completed, sources, iteration, calls)
            <==> exists b :: 0 <= b < |batches| && b < |calls.answers|
                             && Quoted(batches[b], calls.answers[b].candidates, calls.answers[b].ids, e)
  {
    var batches := BatchesOf(completed, sources, iteration, calls);
    var parts := Answered(batches, calls.answers);
    if e in Extracted(completed, sources, iteration, calls) {
      var b := FlattenFrom(parts, e);
      ExtractedIsQuoted(batches[b], calls.answers[b].candidates, calls.answers[b].ids, e);
    }
    if b :| 0 <= b < |batches| && b < |calls.answers|
            && Quoted(batches[b], calls.answers[b].candidates, calls.answers[b].ids, e) {
      ExtractedIsQuoted(batches[b], calls.answers[b].candidates, calls.answers[b].ids, e);
      FlattenHolds(parts, b, e);
    }
  }

  /** A chunk is among the passages. */
  predicate IsRead(passages: seq<Passage>, id: Id) {
    exists i :: 0 <= i < |passages| && passages[i].chunk.id == id
  }

  /** A round reads every chunk retrieved for one of its subtasks that has
      sources, as long as there are no more than its calls can take, and the
      front of them if there are. */
  lemma RetrievedAreRead(completed: seq<TaskOutcome>, sources: seq<SourceRef>, iteration: nat, calls: Calls,
                         key: string, i: nat)
    requires DoneIn(completed, iteration, key) && SourcesOf(sources, key) != []
    requires key in calls.retrieved && i < |calls.retrieved[key]|
    ensures var passages := Interleaved(PassagesOf(TasksRead(completed, sources, iteration), calls, iteration));
            && IsRead(passages, calls.retrieved[key][i].id)
            && Flattened(BatchesOf(completed, sources, iteration, calls)) == passages[..Least(36, |passages|)]
  {
    var keys := TasksRead(completed, sources, iteration);
    var perTask := PassagesOf(keys, calls, iteration);
    var passages := Interleaved(perTask);
    TasksReadAreDone(completed, sources, iteration);
    var t :| 0 <= t < |keys| && keys[t] == key;
    assert perTask[t][i].chunk == calls.retrieved[key][i];
    SubtasksAreReadEvenly(perTask, Longest(perTask), t, i);
    var k :| 0 <= k < |ChunkIds(passages)| && ChunkIds(passages)[k] == perTask[t][i].chunk.id;
    assert passages[k].chunk.id == calls.retrieved[key][i].id;
    BatchesCutTheTail(passages, PASSAGES_PER_CALL, MAX_EXTRACTION_CALLS);
  }
}
