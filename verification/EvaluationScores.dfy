/** Which evaluation ends up at which question: from the calls of the model, in any
    interleaving, to the merged list. */
module EvaluationScores {
  import opened Text
  import opened EvaluationGraph

  // -------------------------------------------------------------------------- batches

  function Size(batchSize: int): nat {
    if batchSize < 1 then 1 else batchSize
  }

  /** Every batch is full but the last, which holds what is left. */
  lemma {:induction false} BatchAt(from: nat, total: nat, batchSize: int, k: nat)
    requires k < |SplitBatches(from, total, batchSize)|
    ensures var size := if batchSize < 1 then 1 else batchSize;
            var batch := SplitBatches(from, total, batchSize)[k];
            && batch.start == from + k * size < total
            && batch.end == (if from + k * size + size < total then from + k * size + size else total)
            && (k + 1 < |SplitBatches(from, total, batchSize)| <==> batch.end < total)
    decreases total - from
  {
    var size := Size(batchSize);
    var end := if from + size < total then from + size else total;
    var rest := SplitBatches(end, total, batchSize);
    assert SplitBatches(from, total, batchSize)[1..] == rest;
    if k > 0 {
      BatchAt(end, total, batchSize, k - 1);
      OneMore(k, size);
    } else {
      assert rest == [] <==> end >= total;
    }
  }

  lemma OneMore(k: nat, size: nat)
    requires k > 0
    ensures k * size == size + (k - 1) * size
  {
  }

  /** The batch that a question is in. */
  lemma {:induction false} BatchOf(from: nat, total: nat, batchSize: int, q: nat) returns (k: nat)
    requires from <= q < total
    ensures k < |SplitBatches(from, total, batchSize)|
    ensures SplitBatches(from, total, batchSize)[k].start <= q < SplitBatches(from, total, batchSize)[k].end
    decreases total - from
  {
    var size := Size(batchSize);
    var end := if from + size < total then from + size else total;
    assert SplitBatches(from, total, batchSize)[1..] == SplitBatches(end, total, batchSize);
    if q < end {
      k := 0;
    } else {
      var k' := BatchOf(end, total, batchSize, q);
      k := k' + 1;
    }
  }

  // ------------------------------------------------------------------- what is kept

  /** What the model returned for a batch, if it was not empty, is the report that the batch
      has settled with, and a batch without such an answer has none. */
  ghost predicate Kept(s: State, events: seq<Event>) {
    && |s.phases| == |s.batches|
    && (forall task: nat, output | output != [] && task < |s.phases| && Returns(task, output) in events ::
          s.phases[task].Settled? && s.phases[task].result.report.Some?
          && ReportOf(s.phases[task].result.report.value, output, s.batches[task].start))
    && (forall task: nat | task < |s.phases| && s.phases[task].Settled? && s.phases[task].result.report.Some? ::
          Answered(task, events))
    && (forall r | r in s.results :: Settles(s, r))
  }

  ghost predicate Answered(task: nat, events: seq<Event>) {
    exists output :: output != [] && Returns(task, output) in events
  }

  predicate Settles(s: State, r: BatchResult)
    requires |s.phases| == |s.batches|
  {
    exists task: nat :: task < |s.phases| && s.phases[task] == Settled(r) && s.batches[task] == r.batch
  }

  lemma StepShape(s: State, e: Event)
    requires |s.phases| == |s.batches| && Step(s, e).Some?
    ensures var s' := Step(s, e).value;
            && s'.batches == s.batches && |s'.phases| == |s.phases| && e.task < |s.phases|
            && !s.phases[e.task].Settled?
            && (forall t: nat | t < |s.phases| && t != e.task :: s'.phases[t] == s.phases[t])
            && (if s'.phases[e.task].Settled?
                then && s'.results == s.results + [s'.phases[e.task].result]
                     && s'.phases[e.task].result.batch == s.batches[e.task]
                else s'.results == s.results)
            && (s'.phases[e.task].Settled? && s'.phases[e.task].result.report.Some? <==> e.Returns? && e.output != [])
            && (e.Returns? && e.output != [] ==>
                  ReportOf(s'.phases[e.task].result.report.value, e.output, s.batches[e.task].start))
  {
  }

  lemma StepKeeps(s: State, events: seq<Event>, e: Event)
    requires Kept(s, events) && Step(s, e).Some?
    ensures Kept(Step(s, e).value, events + [e])
  {
    hide Step, ReportOf;
    var s', all := Step(s, e).value, events + [e];
    StepShape(s, e);
    assert forall x | x in all :: x in events || x == e;
    forall task: nat, output | output != [] && task < |s'.phases| && Returns(task, output) in all
      ensures s'.phases[task].Settled? && s'.phases[task].result.report.Some?
      ensures ReportOf(s'.phases[task].result.report.value, output, s'.batches[task].start)
    {
      assert Returns(task, output) in events || e == Returns(task, output);
    }
    forall task: nat | task < |s'.phases| && s'.phases[task].Settled? && s'.phases[task].result.report.Some?
      ensures Answered(task, all)
    {
      if task == e.task {
        assert e in all;
      } else {
        var output :| output != [] && Returns(task, output) in events;
        assert Returns(task, output) in all;
      }
    }
    forall r | r in s'.results ensures Settles(s', r) {
      if r in s.results {
        var task: nat :| task < |s.phases| && s.phases[task] == Settled(r) && s.batches[task] == r.batch;
        assert s'.phases[task] == Settled(r);
      } else {
        assert s'.phases[e.task] == Settled(r);
      }
    }
  }

  lemma {:induction false} RunKeeps(batches: seq<Batch>, limit: int, events: seq<Event>)
    requires Run(Init(batches, limit), events).Some?
    ensures Kept(Run(Init(batches, limit), events).value, events)
  {
    if events != [] {
      hide Step, Kept;
      RunKeeps(batches, limit, ButLast(events));
      StepKeeps(Run(Init(batches, limit), ButLast(events)).value, ButLast(events), Last(events));
      assert events == ButLast(events) + [Last(events)];
    }
  }

  // --------------------------------------------------------------------- end to end

  lemma {:induction false} StartsApart(batches: seq<Batch>, from: nat, to: nat, i: nat, j: nat)
    requires Contiguous(batches, from, to) && i < j < |batches|
    ensures batches[i].end <= batches[j].start
  {
    ContiguousStarts(batches, from, to);
    if i > 0 {
      StartsApart(batches[1..], batches[0].end, to, i - 1, j - 1);
    }
  }

  lemma SameBatch(batches: seq<Batch>, total: nat, i: nat, j: nat)
    requires Contiguous(batches, 0, total) && i < |batches| && j < |batches| && batches[i] == batches[j]
    ensures i == j
  {
    ContiguousStarts(batches, 0, total);
    if i < j {
      StartsApart(batches, 0, total, i, j);
    } else if j < i {
      StartsApart(batches, 0, total, j, i);
    }
  }

  /** Where a result holds what the model answered, and where nothing. */
  lemma ResultOf(batches: seq<Batch>, limit: int, total: nat, events: seq<Event>, task: nat, r: BatchResult)
    requires Run(Init(batches, limit), events).Some? && Contiguous(batches, 0, total)
    requires r in Run(Init(batches, limit), events).value.results && task < |batches| && r.batch == batches[task]
    ensures forall output | output != [] && Returns(task, output) in events ::
              r.report.Some? && ReportOf(r.report.value, output, r.batch.start)
    ensures (forall output | Returns(task, output) in events :: output == []) ==> r.report.None?
  {
    hide Step, ReportOf, Contiguous, Run;
    RunKeepsInv(batches, limit, events);
    RunKeeps(batches, limit, events);
    var s := Run(Init(batches, limit), events).value;
    var t: nat :| t < |s.phases| && s.phases[t] == Settled(r) && s.batches[t] == r.batch;
    SameBatch(batches, total, task, t);
    if r.report.Some? {
      var output :| output != [] && Returns(task, output) in events;
    }
  }

  /** End to end: if the results are merged in the order of the batches, question `q` has
      exactly the score and feedback that the model returned at its place for the batch it is
      in, counting full batches from the first question on; and zero if the model returned
      too few or nothing for that batch. */
  lemma EvaluationOfQuestion(
      total: nat, batchSize: int, limit: int, events: seq<Event>, collected: seq<BatchResult>, q: nat)
    returns (task: nat)
    requires var s := Run(Init(SplitBatches(0, total, batchSize), limit), events);
             && s.Some? && AllSettled(s.value) && multiset(collected) == multiset(s.value.results)
             && BatchesOf(collected) == SplitBatches(0, total, batchSize)
    requires q < total
    ensures var size := if batchSize < 1 then 1 else batchSize;
            var merged, i := MergedItems(collected), q - task * size;
            && 0 <= i < size && |merged| == total && merged[q].questionIndex == q
            && (forall output: seq<Evaluation> | output != [] && Returns(task, output) in events ::
                  if i < |output| then merged[q].score == output[i].score && merged[q].feedback == output[i].feedback
                  else merged[q].score == 0)
            && ((forall output | Returns(task, output) in events :: output == []) ==> merged[q].score == 0)
  {
    hide *;
    EvaluationAlignedIff(total, batchSize, limit, events, collected);
    AlignedAt(collected, q);
    task := Placed(total, batchSize, collected, q);
    var r, i := collected[task], q - task * Size(batchSize);
    SizeIs(batchSize);
    assert r in multiset(collected);
    SplitBatchesContiguous(0, total, batchSize);
    ResultOf(SplitBatches(0, total, batchSize), limit, total, events, task, r);
    forall output: seq<Evaluation> | output != [] && Returns(task, output) in events
      ensures if i < |output| then ItemAt(r, i).score == output[i].score && ItemAt(r, i).feedback == output[i].feedback
              else ItemAt(r, i).score == 0
    {
      ItemOf(r, output, i);
    }
    if forall output | Returns(task, output) in events :: output == [] {
      NoItem(r, i);
    }
  }

  lemma SizeIs(batchSize: int)
    ensures Size(batchSize) == if batchSize < 1 then 1 else batchSize
  {
  }

  lemma Placed(total: nat, batchSize: int, collected: seq<BatchResult>, q: nat) returns (task: nat)
    requires BatchesOf(collected) == SplitBatches(0, total, batchSize) && q < total
    ensures task < |collected| == |SplitBatches(0, total, batchSize)|
    ensures collected[task].batch == SplitBatches(0, total, batchSize)[task]
    ensures 0 <= q - task * Size(batchSize) < Size(batchSize) && q < |MergedItems(collected)|
    ensures MergedItems(collected)[q] == ItemAt(collected[task], q - task * Size(batchSize))
  {
    hide MergedItems, Contiguous, SplitBatches, ItemAt;
    SplitBatchesContiguous(0, total, batchSize);
    task := BatchOf(0, total, batchSize, q);
    BatchAt(0, total, batchSize, task);
    assert BatchesOf(collected)[task] == collected[task].batch;
    MergedItemAt(collected, 0, total, task, q - collected[task].batch.start);
  }

  lemma ItemOf(r: BatchResult, output: seq<Evaluation>, i: nat)
    requires r.report.Some? && ReportOf(r.report.value, output, r.batch.start)
    ensures if i < |output| then ItemAt(r, i).score == output[i].score && ItemAt(r, i).feedback == output[i].feedback
            else ItemAt(r, i).score == 0
  {
  }

  lemma NoItem(r: BatchResult, i: nat)
    requires r.report.None?
    ensures ItemAt(r, i).score == 0
  {
  }

  lemma AlignedAt(collected: seq<BatchResult>, q: nat)
    requires AlignedFrom(MergedItems(collected), 0) && q < |MergedItems(collected)|
    ensures MergedItems(collected)[q].questionIndex == q
  {
  }

  // ---------------------------------------------------------------------- degradation

  /** The batches that ended without a report, in the order they settled. */
  function Degraded(results: seq<BatchResult>): seq<Batch> {
    if results == [] then []
    else Degraded(ButLast(results)) + if Last(results).report.None? then [Last(results).batch] else []
  }

  /** There is one error for each of them, about that batch. */
  lemma {:induction false} ErrorsAreDegraded(batches: seq<Batch>, limit: int, events: seq<Event>)
    requires Run(Init(batches, limit), events).Some?
    ensures Run(Init(batches, limit), events).value.errors == Degraded(Run(Init(batches, limit), events).value.results)
  {
    if events != [] {
      ErrorsAreDegraded(batches, limit, ButLast(events));
      RunKeepsInv(batches, limit, ButLast(events));
      StepErrors(Run(Init(batches, limit), ButLast(events)).value, Last(events));
    }
  }

  lemma StepErrors(s: State, e: Event)
    requires |s.phases| == |s.batches| && s.errors == Degraded(s.results) && Step(s, e).Some?
    ensures Step(s, e).value.errors == Degraded(Step(s, e).value.results)
  {
    hide ToBatchReport, Degraded;
    var s' := Step(s, e).value;
    if |s'.results| > |s.results| {
      DegradedSnoc(s.results, Last(s'.results));
    }
  }

  lemma DegradedSnoc(results: seq<BatchResult>, r: BatchResult)
    ensures Degraded(results + [r]) == if r.report.None? then Degraded(results) + [r.batch] else Degraded(results)
  {
    assert ButLast(results + [r]) == results && Last(results + [r]) == r;
    assert Degraded(results) + [] == Degraded(results);
  }
}
