/** Evidence extraction (`EvidenceAgent` in `agents/extraction.py`): which
    passages a round reads, and where a quote is in the document it is from. */
module Extraction {
  import opened Wrappers
  import opened Ordering
  import opened Schemas
  import opened Reducers
  import opened Catalogs
  import opened Finding
  import opened Flattening

  const PASSAGES_PER_CALL := 12
  const MAX_EXTRACTION_CALLS := 3

  /** A piece of a stored document, as the retriever returns it. */
  datatype Chunk = Chunk(id: Id, documentId: Id, sourceId: Id, charStart: nat, text: string)

  /** A retrieved chunk, and the subtask it was retrieved for. */
  datatype Passage = Passage(chunk: Chunk, taskKey: string, iteration: nat)

  datatype CandidateValue = CandidateValue(passage: nat, quote: string, stance: EvidenceStance) {
    predicate Quoted() {
      20 <= |quote| <= 1000
    }
  }

  /** A span a model says bears on the question. */
  type Candidate = c: CandidateValue | c.Quoted() witness CandidateValue(1, seq(20, i => 'x'), Neutral)

  // --- finding a quote -----------------------------------------------------------------------

  /** The evidence a quote makes of the passage it stands in: the first place it
      stands at, counted from the start of the document. */
  function Located(candidate: Candidate, passage: Passage, id: Id): Option<EvidenceItem> {
    var at := FirstIndex(passage.chunk.text, candidate.quote, 0);
    if at.None? then None
    else
      var start := passage.chunk.charStart + at.value;
      Some(EvidenceValue(id, passage.taskKey, passage.iteration, passage.chunk.sourceId, passage.chunk.documentId,
                         candidate.quote, start, start + |candidate.quote|, candidate.stance))
  }

  /** The chunk is what the stored document says at its place. */
  predicate Faithful(documents: map<Id, string>, chunk: Chunk) {
    && chunk.documentId in documents
    && StandsAt(documents[chunk.documentId], chunk.text, chunk.charStart)
  }

  /** Reading the stored document at a span's offsets gives back its quote. */
  predicate ReadsBack(documents: map<Id, string>, item: EvidenceItem) {
    && item.documentId in documents
    && item.spanEnd <= |documents[item.documentId]|
    && documents[item.documentId][item.spanStart..item.spanEnd] == item.claimText
  }

  /** What stands in a text that stands in another stands there too. */
  lemma StandsWithin(document: string, text: string, i: nat, quote: string, k: nat)
    requires StandsAt(document, text, i) && StandsAt(text, quote, k)
    ensures StandsAt(document, quote, i + k)
  {
    forall j | 0 <= j < |quote| ensures document[i + k + j] == quote[j] {
      assert text[k..k + |quote|][j] == text[k + j];
      assert document[i..i + |text|][k + j] == document[i + k + j];
    }
    assert document[i + k..i + k + |quote|] == quote;
  }

  /** A quote becomes evidence exactly when it is in the passage, and what is
      kept reads back from the stored document. */
  lemma LocatedReadsBack(documents: map<Id, string>, candidate: Candidate, passage: Passage, id: Id)
    requires Faithful(documents, passage.chunk)
    ensures Located(candidate, passage, id).Some? <==> exists i :: StandsAt(passage.chunk.text, candidate.quote, i)
    ensures Located(candidate, passage, id).Some? ==> ReadsBack(documents, Located(candidate, passage, id).value)
  {
    var at := FirstIndex(passage.chunk.text, candidate.quote, 0);
    if at.Some? {
      var document, chunk, quote := documents[passage.chunk.documentId], passage.chunk, candidate.quote;
      var start := chunk.charStart + at.value;
      StandsWithin(document, chunk.text, chunk.charStart, quote, at.value);
    }
  }

  /** `quote` stands there, and nowhere earlier. */
  predicate StandsFirst(text: string, quote: string, i: int) {
    StandsAt(text, quote, i) && forall k :: 0 <= k < i ==> !StandsAt(text, quote, k)
  }

  /** `e` is the candidate's quote and stance, labelled and sourced as the
      passage is, its place counted from the start of the document. */
  predicate QuotedFrom(passage: Passage, candidate: Candidate, e: EvidenceItem) {
    && e.taskKey == passage.taskKey && e.iteration == passage.iteration
    && e.sourceId == passage.chunk.sourceId && e.documentId == passage.chunk.documentId
    && e.claimText == candidate.quote && e.stance == candidate.stance
    && StandsFirst(passage.chunk.text, candidate.quote, e.spanStart - passage.chunk.charStart)
  }

  lemma LocatedIsQuoted(candidate: Candidate, passage: Passage, id: Id, e: EvidenceItem)
    ensures Located(candidate, passage, id) == Some(e) <==> e.id == id && QuotedFrom(passage, candidate, e)
  {
    var at := FirstIndex(passage.chunk.text, candidate.quote, 0);
    if e.id == id && QuotedFrom(passage, candidate, e) {
      var i := e.spanStart - passage.chunk.charStart;
      assert StandsAt(passage.chunk.text, candidate.quote, i) && at.Some?;
      assert !(at.value < i) && !(i < at.value);
      assert e.spanEnd == e.spanStart + |candidate.quote|;
    }
  }

  // --- one call ------------------------------------------------------------------------------

  /** What is kept of one candidate. */
  function KeptOf(batch: seq<Passage>, candidate: Candidate, id: Id): seq<EvidenceItem> {
    var passage := Get(batch, candidate.passage);
    if passage.None? then []
    else
      var item := Located(candidate, passage.value, id);
      if item.Some? then [item.value] else []
  }

  /** The evidence one call's candidates come to. `ids` are the new ids. */
  function ExtractedFrom(batch: seq<Passage>, candidates: seq<Candidate>, ids: seq<Id>): seq<EvidenceItem>
    requires |ids| == |candidates|
  {
    if candidates == [] then []
    else
      var n := |candidates| - 1;
      ExtractedFrom(batch, candidates[..n], ids[..n]) + KeptOf(batch, candidates[n], ids[n])
  }

  lemma ExtractedOneMore(batch: seq<Passage>, candidates: seq<Candidate>, ids: seq<Id>, n: nat)
    requires |ids| == |candidates| && n < |candidates|
    ensures ExtractedFrom(batch, candidates[..n + 1], ids[..n + 1])
            == ExtractedFrom(batch, candidates[..n], ids[..n]) + KeptOf(batch, candidates[n], ids[n])
  {
    assert candidates[..n + 1][..n] == candidates[..n] && ids[..n + 1][..n] == ids[..n];
  }

  /** `e` is what a candidate quotes of the passage it numbers. */
  predicate QuotedBy(batch: seq<Passage>, candidate: Candidate, id: Id, e: EvidenceItem) {
    e.id == id && 1 <= candidate.passage <= |batch| && QuotedFrom(batch[candidate.passage - 1], candidate, e)
  }

  lemma KeptIsQuoted(batch: seq<Passage>, candidate: Candidate, id: Id, e: EvidenceItem)
    ensures e in KeptOf(batch, candidate, id) <==> QuotedBy(batch, candidate, id, e)
  {
    if 1 <= candidate.passage <= |batch| {
      LocatedIsQuoted(candidate, batch[candidate.passage - 1], id, e);
    }
  }

  predicate Quoted(batch: seq<Passage>, candidates: seq<Candidate>, ids: seq<Id>, e: EvidenceItem)
    requires |ids| == |candidates|
  {
    exists k :: 0 <= k < |candidates| && QuotedBy(batch, candidates[k], ids[k], e)
  }

  lemma QuotedOneMore(batch: seq<Passage>, candidates: seq<Candidate>, ids: seq<Id>, n: nat, e: EvidenceItem)
    requires |ids| == |candidates| == n + 1
    ensures Quoted(batch, candidates, ids, e)
            <==> Quoted(batch, candidates[..n], ids[..n], e) || QuotedBy(batch, candidates[n], ids[n], e)
  {
    if k :| 0 <= k < n && QuotedBy(batch, candidates[..n][k], ids[..n][k], e) {
      assert QuotedBy(batch, candidates[k], ids[k], e);
    }
    if k :| 0 <= k < |candidates| && QuotedBy(batch, candidates[k], ids[k], e) {
      assert k < n ==> QuotedBy(batch, candidates[..n][k], ids[..n][k], e);
    }
  }

  /** The evidence of one call is exactly what its candidates quote of the
      passages they number. */
  lemma {:induction false} ExtractedIsQuoted(batch: seq<Passage>, candidates: seq<Candidate>, ids: seq<Id>, e: EvidenceItem)
    requires |ids| == |candidates|
    ensures e in ExtractedFrom(batch, candidates, ids) <==> Quoted(batch, candidates, ids, e)
  {
    if candidates != [] {
      var n := |candidates| - 1;
      ExtractedIsQuoted(batch, candidates[..n], ids[..n], e);
      KeptIsQuoted(batch, candidates[n], ids[n], e);
      QuotedOneMore(batch, candidates, ids, n, e);
    }
  }

  function Numbers(candidates: seq<Candidate>): (numbers: seq<nat>)
    ensures |numbers| == |candidates|
  {
    seq(|candidates|, i requires 0 <= i < |candidates| => candidates[i].passage)
  }

  /** What the first `n` candidates come to: what is kept, how many quotes stand
      nowhere, and how many numbers are of no passage. */
  predicate Tallied(batch: seq<Passage>, candidates: seq<Candidate>, ids: seq<Id>, n: nat,
                    found: seq<EvidenceItem>, unquoted: nat, invented: nat) {
    && n <= |candidates| == |ids|
    && found == ExtractedFrom(batch, candidates[..n], ids[..n])
    && invented == |OutOfRange(Numbers(candidates[..n]), |batch|)|
    && |found| + unquoted + invented == n
  }

  lemma TallyOne(batch: seq<Passage>, candidates: seq<Candidate>, ids: seq<Id>, n: nat,
                 found: seq<EvidenceItem>, unquoted: nat, invented: nat)
    requires Tallied(batch, candidates, ids, n, found, unquoted, invented) && n < |candidates|
    ensures var passage := Get(batch, candidates[n].passage);
            if passage.None? then Tallied(batch, candidates, ids, n + 1, found, unquoted, invented + 1)
            else
              var item := Located(candidates[n], passage.value, ids[n]);
              if item.None? then Tallied(batch, candidates, ids, n + 1, found, unquoted + 1, invented)
              else Tallied(batch, candidates, ids, n + 1, found + [item.value], unquoted, invented)
  {
    ExtractedOneMore(batch, candidates, ids, n);
    assert Numbers(candidates[..n + 1])[..n] == Numbers(candidates[..n]);
  }

  lemma TallyEnds(batch: seq<Passage>, candidates: seq<Candidate>, ids: seq<Id>,
                  found: seq<EvidenceItem>, unquoted: nat, invented: nat)
    requires Tallied(batch, candidates, ids, |candidates|, found, unquoted, invented)
    ensures found == ExtractedFrom(batch, candidates, ids)
    ensures forall e :: e in found <==> Quoted(batch, candidates, ids, e)
    ensures invented == |OutOfRange(Numbers(candidates), |batch|)|
    ensures |found| + unquoted + invented == |candidates|
  {
    assert candidates[..|candidates|] == candidates && ids[..|ids|] == ids;
    forall e ensures e in found <==> Quoted(batch, candidates, ids, e) {
      ExtractedIsQuoted(batch, candidates, ids, e);
    }
  }

  method ExtractBatch(batch: seq<Passage>, candidates: seq<Candidate>, ids: seq<Id>)
    returns (found: seq<EvidenceItem>, unquoted: nat, invented: nat)
    requires |ids| == |candidates|
    ensures found == ExtractedFrom(batch, candidates, ids)
    ensures forall e :: e in found <==> Quoted(batch, candidates, ids, e)
    ensures invented == |OutOfRange(Numbers(candidates), |batch|)|
    ensures |found| + unquoted + invented == |candidates|
  {
    found, unquoted, invented := [], 0, 0;
    for i := 0 to |candidates|
      invariant Tallied(batch, candidates, ids, i, found, unquoted, invented)
    {
      TallyOne(batch, candidates, ids, i, found, unquoted, invented);
      var passage := Get(batch, candidates[i].passage);
      if passage.None? {
        invented := invented + 1;
      } else {
        var item := Located(candidates[i], passage.value, ids[i]);
        if item.None? {
          unquoted := unquoted + 1;
        } else {
          found := found + [item.value];
        }
      }
    }
    TallyEnds(batch, candidates, ids, found, unquoted, invented);
  }

  // --- which passages a round reads ------------------------------------------------------------

  function ChunkIds(passages: seq<Passage>): (ids: seq<Id>)
    ensures |ids| == |passages|
  {
    seq(|passages|, i requires 0 <= i < |passages| => passages[i].chunk.id)
  }

  /** Each chunk once, where it comes first. */
  function FirstOfEach(passages: seq<Passage>): seq<Passage> {
    if passages == [] then []
    else
      var kept, last := FirstOfEach(passages[..|passages| - 1]), passages[|passages| - 1];
      if last.chunk.id in ChunkIds(kept) then kept else kept + [last]
  }

  /** The `r`th passage of each subtask that has one. */
  function RowParts(perTask: seq<seq<Passage>>, r: nat): (parts: seq<seq<Passage>>)
    ensures |parts| == |perTask|
  {
    seq(|perTask|, t requires 0 <= t < |perTask| => if r < |perTask[t]| then [perTask[t][r]] else [])
  }

  function Row(perTask: seq<seq<Passage>>, r: nat): seq<Passage> {
    Flattened(RowParts(perTask, r))
  }

  /** The first `n` rows. */
  function Rows(perTask: seq<seq<Passage>>, n: nat): (rows: seq<seq<Passage>>)
    ensures |rows| == n
  {
    seq(n, r requires 0 <= r < n => Row(perTask, r))
  }

  function Longest(perTask: seq<seq<Passage>>): (n: nat)
    ensures forall t :: 0 <= t < |perTask| ==> |perTask[t]| <= n
  {
    if perTask == [] then 0
    else
      var rest := Longest(perTask[..|perTask| - 1]);
      if |perTask[|perTask| - 1]| > rest then |perTask[|perTask| - 1]| else rest
  }

  /** Row by row across the subtasks, each chunk once. */
  function Interleaved(perTask: seq<seq<Passage>>): seq<Passage> {
    FirstOfEach(Flattened(Rows(perTask, Longest(perTask))))
  }

  /** `seen` is what the passages kept so far are known by. */
  ghost predicate Seen(seen: set<Id>, kept: seq<Passage>) {
    forall id :: id in seen <==> id in ChunkIds(kept)
  }

  lemma TakeOne(read: seq<Passage>, kept: seq<Passage>, seen: set<Id>, passage: Passage)
    requires kept == FirstOfEach(read) && Seen(seen, kept)
    ensures passage.chunk.id in seen ==> FirstOfEach(read + [passage]) == kept
    ensures passage.chunk.id !in seen ==>
              FirstOfEach(read + [passage]) == kept + [passage] && Seen(seen + {passage.chunk.id}, kept + [passage])
  {
    assert (read + [passage])[..|read|] == read;
    assert ChunkIds(kept + [passage]) == ChunkIds(kept) + [passage.chunk.id];
  }

  method TakeRow(perTask: seq<seq<Passage>>, r: nat, ghost read: seq<Passage>, interleaved: seq<Passage>, seen: set<Id>)
    returns (interleaved': seq<Passage>, seen': set<Id>)
    requires interleaved == FirstOfEach(read) && Seen(seen, interleaved)
    ensures interleaved' == FirstOfEach(read + Row(perTask, r)) && Seen(seen', interleaved')
  {
    interleaved', seen' := interleaved, seen;
    ghost var parts := RowParts(perTask, r);
    ghost var all := read;
    for t := 0 to |perTask|
      invariant all == read + Flattened(parts[..t])
      invariant interleaved' == FirstOfEach(all)
      invariant Seen(seen', interleaved')
    {
      FlattenOne(parts, t);
      Regroup(read, Flattened(parts[..t]), parts[t]);
      if r < |perTask[t]| {
        var passage := perTask[t][r];
        TakeOne(all, interleaved', seen', passage);
        all := all + [passage];
        if passage.chunk.id !in seen' {
          seen' := seen' + {passage.chunk.id};
          interleaved' := interleaved' + [passage];
        }
      } else {
        assert all + [] == all;
      }
    }
    assert parts[..|perTask|] == parts;
  }

  method Interleave(perTask: seq<seq<Passage>>) returns (interleaved: seq<Passage>)
    ensures interleaved == Interleaved(perTask)
  {
    interleaved := [];
    var seen: set<Id> := {};
    ghost var rows := Rows(perTask, Longest(perTask));
    for r := 0 to Longest(perTask)
      invariant interleaved == FirstOfEach(Flattened(rows[..r]))
      invariant Seen(seen, interleaved)
    {
      FlattenOne(rows, r);
      interleaved, seen := TakeRow(perTask, r, Flattened(rows[..r]), interleaved, seen);
    }
    assert rows[..Longest(perTask)] == rows;
  }

  lemma {:induction false} FirstsAreDistinct(passages: seq<Passage>)
    ensures NoDuplicates(ChunkIds(FirstOfEach(passages)))
    ensures forall p :: p in FirstOfEach(passages) ==> p in passages
    ensures forall p :: p in passages ==> p.chunk.id in ChunkIds(FirstOfEach(passages))
  {
    if passages != [] {
      var init, last := passages[..|passages| - 1], passages[|passages| - 1];
      FirstsAreDistinct(init);
      assert passages == init + [last];
      var kept := FirstOfEach(init);
      assert ChunkIds(kept + [last]) == ChunkIds(kept) + [last.chunk.id];
    }
  }

  lemma {:induction false} FirstsGrow(a: seq<Passage>, b: seq<Passage>)
    ensures FirstOfEach(a) <= FirstOfEach(a + b)
  {
    if b == [] {
      assert a + b == a;
    } else {
      FirstsGrow(a, b[..|b| - 1]);
      assert (a + b)[..|a + b| - 1] == a + b[..|b| - 1];
    }
  }

  /** A round's passages are chunks that were retrieved, each once. */
  lemma PassagesAreRetrieved(perTask: seq<seq<Passage>>)
    ensures NoDuplicates(ChunkIds(Interleaved(perTask)))
    ensures forall p :: p in Interleaved(perTask) ==> OfSomeTask(perTask, p)
  {
    var all := Flattened(Rows(perTask, Longest(perTask)));
    FirstsAreDistinct(all);
    forall p | p in Interleaved(perTask) ensures OfSomeTask(perTask, p) {
      RowsAreOfTasks(perTask, Longest(perTask), p);
    }
  }

  predicate OfSomeTask(perTask: seq<seq<Passage>>, passage: Passage) {
    exists t :: 0 <= t < |perTask| && passage in perTask[t]
  }

  lemma RowsAreOfTasks(perTask: seq<seq<Passage>>, n: nat, p: Passage)
    requires p in Flattened(Rows(perTask, n))
    ensures OfSomeTask(perTask, p)
  {
    var r := FlattenFrom(Rows(perTask, n), p);
    var t := FlattenFrom(RowParts(perTask, r), p);
    assert p == perTask[t][r] && p in perTask[t];
  }

  lemma RowsHold(perTask: seq<seq<Passage>>, n: nat, t: nat, r: nat)
    requires t < |perTask| && r < n && r < |perTask[t]|
    ensures perTask[t][r] in Flattened(Rows(perTask, n))
  {
    FlattenHolds(RowParts(perTask, r), t, perTask[t][r]);
    FlattenHolds(Rows(perTask, n), r, perTask[t][r]);
  }

  lemma RowsGrow(perTask: seq<seq<Passage>>, n: nat, m: nat)
    requires n <= m
    ensures FirstOfEach(Flattened(Rows(perTask, n))) <= FirstOfEach(Flattened(Rows(perTask, m)))
  {
    var rows := Rows(perTask, m);
    assert rows == Rows(perTask, n) + rows[n..];
    FlattenConcat(Rows(perTask, n), rows[n..]);
    FirstsGrow(Flattened(Rows(perTask, n)), Flattened(rows[n..]));
  }

  /** Subtasks are read evenly: for every `n`, the first `n` chunks of every
      subtask come before anything else does. */
  lemma SubtasksAreReadEvenly(perTask: seq<seq<Passage>>, n: nat, t: nat, r: nat)
    requires r < n <= Longest(perTask) && t < |perTask| && r < |perTask[t]|
    ensures FirstOfEach(Flattened(Rows(perTask, n))) <= Interleaved(perTask)
    ensures perTask[t][r].chunk.id in ChunkIds(FirstOfEach(Flattened(Rows(perTask, n))))
  {
    RowsGrow(perTask, n, Longest(perTask));
    RowsHold(perTask, n, t, r);
    FirstsAreDistinct(Flattened(Rows(perTask, n)));
  }

  // --- batches -------------------------------------------------------------------------------

  function Least(a: nat, b: nat): nat {
    if a <= b then a else b
  }

  /** As many batches as there may be calls. */
  function Batches(passages: seq<Passage>, size: Positive, calls: nat): (batches: seq<seq<Passage>>)
    ensures |batches| <= calls
    decreases calls
  {
    if passages == [] || calls == 0 then []
    else
      var n := Least(size, |passages|);
      [passages[..n]] + Batches(passages[n..], size, calls - 1)
  }

  lemma TakeMore(passages: seq<Passage>, n: nat, m: nat)
    requires n <= m <= |passages|
    ensures passages[..n] + passages[n..][..m - n] == passages[..m]
  {
  }

  lemma CallsRead(size: Positive, calls: Positive, total: nat)
    ensures var n := Least(size, total);
            Least(size * calls, total) == n + Least(size * (calls - 1), total - n)
  {
    assert size * calls == size + size * (calls - 1);
    assert size * (calls - 1) >= 0;
  }

  lemma {:induction false} BatchesFit(passages: seq<Passage>, size: Positive, calls: nat)
    ensures forall b :: b in Batches(passages, size, calls) ==> 1 <= |b| <= size
    decreases calls
  {
    if passages != [] && calls > 0 {
      BatchesFit(passages[Least(size, |passages|)..], size, calls - 1);
    }
  }

  lemma {:induction false} BatchesAreFront(passages: seq<Passage>, size: Positive, calls: nat)
    ensures Flattened(Batches(passages, size, calls)) == passages[..Least(size * calls, |passages|)]
    decreases calls
  {
    if passages != [] && calls > 0 {
      var n := Least(size, |passages|);
      BatchesAreFront(passages[n..], size, calls - 1);
      var rest := Batches(passages[n..], size, calls - 1);
      FlattenCons(passages[..n], rest);
      CallsRead(size, calls, |passages|);
      TakeMore(passages, n, Least(size * calls, |passages|));
    } else {
      assert calls == 0 ==> size * calls == 0;
    }
  }

  /** The batches are the front of the passages, cut after as many as the calls
      can read, and none is empty or larger than one call takes. */
  lemma BatchesCutTheTail(passages: seq<Passage>, size: Positive, calls: nat)
    ensures forall b :: b in Batches(passages, size, calls) ==> 1 <= |b| <= size
    ensures Flattened(Batches(passages, size, calls)) == passages[..Least(size * calls, |passages|)]
  {
    BatchesFit(passages, size, calls);
    BatchesAreFront(passages, size, calls);
  }
}
