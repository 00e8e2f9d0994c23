/** Evaluation of an interview in batches (`backend/app/graphs/evaluation.py`): a fan-out
    under a semaphore with one retry and degradation per batch, and the merge by position
    (`backend/app/domain/services/evaluation.py`). */
module EvaluationGraph {
  import opened Text

  // ------------------------------------------------------------ batches and results

  datatype Batch = Batch(start: nat, end: nat)

  datatype Evaluation = Evaluation(score: int, feedback: string)

  datatype Item = Item(questionIndex: int, score: int, feedback: string)

  datatype BatchResult = BatchResult(batch: Batch, report: Option<seq<Item>>)

  /** `split_batches`. */
  function SplitBatches(from: nat, total: nat, batchSize: int): seq<Batch>
    decreases total - from
  {
    if from >= total then []
    else
      var size := if batchSize < 1 then 1 else batchSize;
      var end := if from + size < total then from + size else total;
      [Batch(from, end)] + SplitBatches(end, total, batchSize)
  }

  /** Nonempty batches, one after the other, from `from` to `to`. */
  predicate Contiguous(batches: seq<Batch>, from: nat, to: nat) {
    if batches == [] then from == to
    else batches[0].start == from < batches[0].end && Contiguous(batches[1..], batches[0].end, to)
  }

  lemma {:induction false} SplitBatchesContiguous(from: nat, total: nat, batchSize: int)
    requires from <= total
    ensures Contiguous(SplitBatches(from, total, batchSize), from, total)
    ensures forall b | b in SplitBatches(from, total, batchSize) ::
              0 < b.end - b.start <= (if batchSize < 1 then 1 else batchSize)
    decreases total - from
  {
    if from < total {
      var size := if batchSize < 1 then 1 else batchSize;
      var end := if from + size < total then from + size else total;
      SplitBatchesContiguous(end, total, batchSize);
    }
  }

  /** `_to_batch_report`: indices are positions, whatever the model claimed. */
  function ToBatchReport(output: seq<Evaluation>, start: nat): seq<Item> {
    seq(|output|, i requires 0 <= i < |output| => Item(start + i, output[i].score, output[i].feedback))
  }

  predicate Positioned(result: BatchResult) {
    result.report.Some? ==>
      forall i | 0 <= i < |result.report.value| :: result.report.value[i].questionIndex == result.batch.start + i
  }

  const NO_EVALUATION := "not evaluated"

  /** What the merge takes for position `i` of a batch: the evaluation there, or zero. */
  function ItemAt(result: BatchResult, i: nat): Item {
    if result.report.Some? && i < |result.report.value| then result.report.value[i]
    else Item(result.batch.start + i, 0, NO_EVALUATION)
  }

  function ItemsOf(result: BatchResult): seq<Item> {
    var expected := result.batch.end - result.batch.start;
    if expected <= 0 then [] else seq(expected, i requires 0 <= i < expected => ItemAt(result, i))
  }

  function MergedItems(results: seq<BatchResult>): seq<Item> {
    if results == [] then [] else ItemsOf(results[0]) + MergedItems(results[1..])
  }

  lemma {:induction false} MergedAppend(a: seq<BatchResult>, b: seq<BatchResult>)
    ensures MergedItems(a + b) == MergedItems(a) + MergedItems(b)
  {
    if a == [] {
      assert a + b == b;
    } else {
      assert (a + b)[1..] == a[1..] + b;
      MergedAppend(a[1..], b);
    }
  }

  /** The inner loop of the merge: one batch, filled up to its expected size. */
  method AppendItems(merged: seq<Item>, result: BatchResult) returns (merged': seq<Item>)
    ensures merged' == merged + ItemsOf(result)
  {
    var expected := result.batch.end - result.batch.start;
    var current := match result.report case Some(items) => items case None => [];
    merged' := merged;
    var i := 0;
    while i < expected
      invariant 0 <= i && i <= |ItemsOf(result)|
      invariant merged' == merged + ItemsOf(result)[..i]
    {
      var item := if i < |current| then current[i] else Item(result.batch.start + i, 0, NO_EVALUATION);
      merged' := merged' + [item];
      i := i + 1;
    }
    assert ItemsOf(result)[..i] == ItemsOf(result);
  }

  /** `merge_question_evaluations`. */
  method MergeQuestionEvaluations(results: seq<BatchResult>) returns (merged: seq<Item>)
    ensures merged == MergedItems(results)
  {
    merged := [];
    for k := 0 to |results|
      invariant merged == MergedItems(results[..k])
    {
      merged := AppendItems(merged, results[k]);
      assert results[..k + 1] == results[..k] + [results[k]];
      MergedAppend(results[..k], [results[k]]);
      assert [results[k]][1..] == [];
    }
    assert results[..|results|] == results;
  }

  // --------------------------------------------------------------- merge by position

  function BatchesOf(results: seq<BatchResult>): seq<Batch> {
    seq(|results|, i requires 0 <= i < |results| => results[i].batch)
  }

  predicate AlignedFrom(items: seq<Item>, from: nat) {
    forall q | 0 <= q < |items| :: items[q].questionIndex == from + q
  }

  lemma ItemsLength(result: BatchResult)
    requires result.batch.start < result.batch.end
    ensures |ItemsOf(result)| == result.batch.end - result.batch.start
  {
  }

  lemma ItemsAligned(result: BatchResult)
    requires Positioned(result)
    ensures AlignedFrom(ItemsOf(result), result.batch.start)
  {
  }

  /** Results in the order of their batches put every item at the position of its question. */
  lemma {:induction false} MergedAligned(results: seq<BatchResult>, from: nat, to: nat)
    requires Contiguous(BatchesOf(results), from, to)
    requires forall r | r in results :: Positioned(r)
    ensures |MergedItems(results)| == to - from
    ensures AlignedFrom(MergedItems(results), from)
  {
    if results != [] {
      assert BatchesOf(results)[1..] == BatchesOf(results[1..]);
      ItemsAligned(results[0]);
      MergedAligned(results[1..], results[0].batch.end, to);
      var head, rest := ItemsOf(results[0]), MergedItems(results[1..]);
      var items: seq<Item> := head + rest;
      forall q | 0 <= q < |items| ensures items[q].questionIndex == from + q {
        if q >= |head| { assert items[q] == rest[q - |head|]; }
      }
    }
  }

  lemma {:induction false} AlignedContiguous(results: seq<BatchResult>, from: nat)
    requires forall r | r in results :: Positioned(r) && r.batch.start < r.batch.end
    requires AlignedFrom(MergedItems(results), from)
    ensures Contiguous(BatchesOf(results), from, from + |MergedItems(results)|)
  {
    if results != [] {
      var head, rest := ItemsOf(results[0]), MergedItems(results[1..]);
      ItemsAligned(results[0]);
      hide ItemsOf, Positioned;
      assert |head| == results[0].batch.end - results[0].batch.start by { ItemsLength(results[0]); }
      assert (head + rest)[0] == head[0];
      forall q | 0 <= q < |rest| ensures rest[q].questionIndex == results[0].batch.end + q {
        assert (head + rest)[|head| + q] == rest[q];
      }
      AlignedContiguous(results[1..], results[0].batch.end);
      assert BatchesOf(results)[1..] == BatchesOf(results[1..]);
    }
  }

  lemma {:induction false} ContiguousStarts(batches: seq<Batch>, from: nat, to: nat)
    requires Contiguous(batches, from, to)
    ensures from <= to
    ensures forall i | 0 <= i < |batches| :: from <= batches[i].start < batches[i].end <= to
    ensures forall i | 1 <= i < |batches| :: batches[0].end <= batches[i].start
  {
    if batches != [] {
      ContiguousStarts(batches[1..], batches[0].end, to);
      forall i | 1 <= i < |batches|
        ensures batches[0].end <= batches[i].start < batches[i].end <= to
      {
        assert batches[i] == batches[1..][i - 1];
      }
    }
  }

  lemma SameHead(a: seq<Batch>, b: seq<Batch>, from: nat, to: nat, to': nat)
    requires Contiguous(a, from, to) && Contiguous(b, from, to')
    requires a != [] && multiset(a) == multiset(b)
    ensures b != [] && a[0] == b[0]
  {
    ContiguousStarts(b, from, to');
    assert a[0] in multiset(b);
    var k :| 0 <= k < |b| && b[k] == a[0];
    assert k == 0;
  }

  /** There is one contiguous arrangement of the same batches. */
  lemma {:induction false} ContiguousUnique(a: seq<Batch>, b: seq<Batch>, from: nat, to: nat, to': nat)
    requires Contiguous(a, from, to) && Contiguous(b, from, to')
    requires multiset(a) == multiset(b)
    ensures a == b
  {
    assert |a| == |multiset(a)| == |multiset(b)| == |b|;
    if a != [] {
      SameHead(a, b, from, to, to');
      MultisetWithout(a, 0);
      MultisetWithout(b, 0);
      assert Without(a, 0) == a[1..] && Without(b, 0) == b[1..];
      ContiguousUnique(a[1..], b[1..], a[0].end, to, to');
    }
  }

  /** Position `i` of the `k`-th batch holds that batch's evaluation, or zero if the batch
      was degraded or its report is too short; no other batch can reach it. */
  lemma {:induction false} MergedItemAt(results: seq<BatchResult>, from: nat, to: nat, k: nat, i: nat)
    requires Contiguous(BatchesOf(results), from, to)
    requires k < |results| && i < results[k].batch.end - results[k].batch.start
    ensures var q := results[k].batch.start + i - from;
            0 <= q < |MergedItems(results)| && MergedItems(results)[q] == ItemAt(results[k], i)
  {
    assert BatchesOf(results)[1..] == BatchesOf(results[1..]);
    assert |ItemsOf(results[0])| == results[0].batch.end - results[0].batch.start;
    if k > 0 {
      MergedItemAt(results[1..], results[0].batch.end, to, k - 1, i);
    }
  }

  /** With one result per batch, every merged item stands at the position of its question
      if and only if the results were collected in batch order. */
  lemma MergedAlignedIff(results: seq<BatchResult>, batches: seq<Batch>, total: nat)
    requires Contiguous(batches, 0, total)
    requires multiset(BatchesOf(results)) == multiset(batches)
    requires forall r | r in results :: Positioned(r)
    ensures AlignedFrom(MergedItems(results), 0) <==> BatchesOf(results) == batches
  {
    hide MergedItems, AlignedFrom, Positioned, Contiguous, BatchesOf;
    if BatchesOf(results) == batches {
      MergedAligned(results, 0, total);
    }
    if AlignedFrom(MergedItems(results), 0) {
      NonemptyBatches(results, batches, total);
      AlignedContiguous(results, 0);
      ContiguousUnique(BatchesOf(results), batches, 0, |MergedItems(results)|, total);
    }
  }

  lemma NonemptyBatches(results: seq<BatchResult>, batches: seq<Batch>, total: nat)
    requires Contiguous(batches, 0, total)
    requires multiset(BatchesOf(results)) == multiset(batches)
    ensures forall r | r in results :: r.batch.start < r.batch.end
  {
    ContiguousStarts(batches, 0, total);
    forall r | r in results ensures r.batch.start < r.batch.end {
      var i :| 0 <= i < |results| && results[i] == r;
      assert BatchesOf(results)[i] == r.batch;
      assert r.batch in multiset(BatchesOf(results));
      assert r.batch in multiset(batches);
    }
  }

  // ------------------------------------------------------- the indices in any order

  function Numbers(from: nat, until: nat): seq<int>
    decreases until - from
  {
    if from >= until then [] else [from] + Numbers(from + 1, until)
  }

  function QuestionIndices(items: seq<Item>): seq<int> {
    seq(|items|, i requires 0 <= i < |items| => items[i].questionIndex)
  }

  /** The positions of all questions of some batches, as a bag. */
  function AllPositions(batches: seq<Batch>): multiset<int> {
    if batches == [] then multiset{}
    else multiset(Numbers(batches[0].start, batches[0].end)) + AllPositions(batches[1..])
  }

  lemma {:induction false} NumbersAt(from: nat, until: nat)
    requires from <= until
    ensures |Numbers(from, until)| == until - from
    ensures forall i | 0 <= i < |Numbers(from, until)| :: Numbers(from, until)[i] == from + i
    decreases until - from
  {
    if from < until {
      NumbersAt(from + 1, until);
    }
  }

  lemma {:induction false} NumbersAppend(from: nat, mid: nat, until: nat)
    requires from <= mid <= until
    ensures Numbers(from, until) == Numbers(from, mid) + Numbers(mid, until)
    decreases mid - from
  {
    if from < mid {
      NumbersAppend(from + 1, mid, until);
    }
  }

  lemma {:induction false} PositionsContiguous(batches: seq<Batch>, from: nat, to: nat)
    requires Contiguous(batches, from, to)
    ensures from <= to && AllPositions(batches) == multiset(Numbers(from, to))
  {
    if batches != [] {
      PositionsContiguous(batches[1..], batches[0].end, to);
      NumbersAppend(from, batches[0].end, to);
    }
  }

  lemma {:induction false} PositionsWithout(batches: seq<Batch>, p: nat)
    requires p < |batches|
    ensures AllPositions(batches)
         == AllPositions(Without(batches, p)) + multiset(Numbers(batches[p].start, batches[p].end))
  {
    hide Numbers;
    if p == 0 {
      assert Without(batches, 0) == batches[1..];
    } else {
      assert Without(batches, p)[0] == batches[0] && Without(batches, p)[1..] == Without(batches[1..], p - 1);
      PositionsWithout(batches[1..], p - 1);
    }
  }

  lemma {:induction false} PositionsPermuted(a: seq<Batch>, b: seq<Batch>)
    requires multiset(a) == multiset(b)
    ensures AllPositions(a) == AllPositions(b)
    decreases |a|
  {
    assert |a| == |multiset(a)| == |multiset(b)| == |b|;
    if a != [] {
      hide AllPositions, Numbers;
      assert a[0] in multiset(b);
      var p :| 0 <= p < |b| && b[p] == a[0];
      MultisetWithout(a, 0);
      MultisetWithout(b, p);
      PositionsWithout(a, 0);
      PositionsWithout(b, p);
      PositionsPermuted(Without(a, 0), Without(b, p));
    }
  }

  lemma ItemIndices(result: BatchResult)
    requires Positioned(result) && result.batch.start < result.batch.end
    ensures QuestionIndices(ItemsOf(result)) == Numbers(result.batch.start, result.batch.end)
  {
    hide ItemsOf, Positioned;
    ItemsLength(result);
    ItemsAligned(result);
    NumbersAt(result.batch.start, result.batch.end);
  }

  /** The indices of the merged items are those of the batches, whatever their order. */
  lemma {:induction false} MergedIndices(results: seq<BatchResult>)
    requires forall r | r in results :: Positioned(r) && r.batch.start < r.batch.end
    ensures multiset(QuestionIndices(MergedItems(results))) == AllPositions(BatchesOf(results))
  {
    if results == [] {
      assert QuestionIndices(MergedItems(results)) == [] && BatchesOf(results) == [];
    } else {
      hide ItemsOf, Positioned, Numbers, QuestionIndices, BatchesOf;
      ItemIndices(results[0]);
      MergedIndices(results[1..]);
      BatchesTail(results);
      IndicesAppend(ItemsOf(results[0]), MergedItems(results[1..]));
    }
  }

  lemma BatchesTail(results: seq<BatchResult>)
    requires results != []
    ensures BatchesOf(results) != [] && BatchesOf(results)[0] == results[0].batch
    ensures BatchesOf(results)[1..] == BatchesOf(results[1..])
  {
  }

  lemma IndicesAppend(a: seq<Item>, b: seq<Item>)
    ensures multiset(QuestionIndices(a + b)) == multiset(QuestionIndices(a)) + multiset(QuestionIndices(b))
  {
    assert QuestionIndices(a + b) == QuestionIndices(a) + QuestionIndices(b);
  }

  // ------------------------------------------------------------------ the fan-out

  /** Where one batch stands. `attempt` is 1 for the first model call and 2 for the retry. */
  datatype Phase =
    | Preparing
    | Waiting(attempt: nat)
    | Calling(attempt: nat)
    | Settled(result: BatchResult)

  datatype State = State(
    batches: seq<Batch>,
    phases: seq<Phase>,
    permits: nat,
    results: seq<BatchResult>,  // `batch_results`, in the order batches settled
    errors: seq<Batch>)         // the batch each entry of `batch_errors` is about

  datatype Event =
    | Prepared(task: nat)
    | PrepareFails(task: nat)
    | Acquires(task: nat)
    | Returns(task: nat, output: seq<Evaluation>)
    | CallRaises(task: nat)

  /** `max(1, limit)`. */
  function Limit(limit: int): nat {
    if limit < 1 then 1 else limit
  }

  function Init(batches: seq<Batch>, limit: int): State {
    State(batches, seq(|batches|, _ => Preparing), Limit(limit), [], [])
  }

  /** The node ends with a report, or degraded with an error. */
  function Settle(s: State, task: nat, report: Option<seq<Item>>): State
    requires task < |s.phases| == |s.batches|
  {
    var result := BatchResult(s.batches[task], report);
    s.(phases := s.phases[task := Settled(result)],
       results := s.results + [result],
       errors := if report.None? then s.errors + [s.batches[task]] else s.errors)
  }

  function Step(s: State, e: Event): Option<State> {
    if |s.phases| != |s.batches| || e.task >= |s.phases| then None
    else
      var task, phase := e.task, s.phases[e.task];
      match e
      case Prepared(_) =>
        if phase.Preparing? then Some(s.(phases := s.phases[task := Waiting(1)])) else None
      case PrepareFails(_) =>
        if phase.Preparing? then Some(Settle(s, task, None)) else None
      case Acquires(_) =>
        if phase.Waiting? && s.permits > 0
        then Some(s.(phases := s.phases[task := Calling(phase.attempt)], permits := s.permits - 1)) else None
      case Returns(_, output) =>
        if !phase.Calling? then None
        else
          var released := s.(permits := s.permits + 1);
          if output != [] then Some(Settle(released, task, Some(ToBatchReport(output, s.batches[task].start))))
          else if phase.attempt == 1 then Some(released.(phases := s.phases[task := Waiting(2)]))
          else Some(Settle(released, task, None))
      case CallRaises(_) =>
        if phase.Calling? then Some(Settle(s.(permits := s.permits + 1), task, None)) else None
  }

  function Run(s: State, events: seq<Event>): Option<State> {
    if events == [] then Some(s)
    else
      match Run(s, ButLast(events))
      case Some(s') => Step(s', Last(events))
      case None => None
  }

  // -------------------------------------------------------------- sums over all phases

  /** The sum of a weight over the phases. */
  function Total(phases: seq<Phase>, weight: Phase -> nat): nat {
    if phases == [] then 0 else weight(phases[0]) + Total(phases[1..], weight)
  }

  lemma {:induction false} TotalUpdate(phases: seq<Phase>, i: nat, p: Phase, weight: Phase -> nat)
    requires i < |phases|
    ensures Total(phases[i := p], weight) == Total(phases, weight) - weight(phases[i]) + weight(p)
    ensures Total(phases, weight) >= weight(phases[i])
  {
    if i > 0 {
      assert phases[i := p][1..] == phases[1..][i - 1 := p];
      TotalUpdate(phases[1..], i - 1, p, weight);
    }
  }

  lemma {:induction false} TotalZero(phases: seq<Phase>, weight: Phase -> nat)
    ensures Total(phases, weight) == 0 <==> forall i | 0 <= i < |phases| :: weight(phases[i]) == 0
  {
    if phases != [] {
      TotalZero(phases[1..], weight);
      assert (forall i | 0 <= i < |phases| :: weight(phases[i]) == 0)
        <==> (weight(phases[0]) == 0 && forall i | 0 <= i < |phases[1..]| :: weight(phases[1..][i]) == 0) by {
        forall i | 1 <= i < |phases| ensures phases[i] == phases[1..][i - 1] {}
      }
    }
  }

  const HOLDING: Phase -> nat := (p: Phase) => if p.Calling? then 1 else 0
  const EFFORT: Phase -> nat := (p: Phase) =>
    match p
    case Preparing => 5
    case Waiting(attempt) => if attempt == 1 then 4 else 2
    case Calling(attempt) => if attempt == 1 then 3 else 1
    case Settled(_) => 0

  // ------------------------------------------------------------------ the invariant

  function DegradedCount(results: seq<BatchResult>): nat {
    if results == [] then 0
    else DegradedCount(ButLast(results)) + (if Last(results).report.None? then 1 else 0)
  }

  predicate AttemptOk(p: Phase) {
    match p
    case Waiting(attempt) => attempt == 1 || attempt == 2
    case Calling(attempt) => attempt == 1 || attempt == 2
    case _ => true
  }

  /** The batches already settled, as a bag. */
  function SettledBatches(batches: seq<Batch>, phases: seq<Phase>): multiset<Batch>
    requires |batches| == |phases|
  {
    if phases == [] then multiset{}
    else (if phases[0].Settled? then multiset{batches[0]} else multiset{}) + SettledBatches(batches[1..], phases[1..])
  }

  predicate Inv(s: State, limit: nat) {
    && |s.phases| == |s.batches|
    && (forall i | 0 <= i < |s.phases| :: AttemptOk(s.phases[i]))
    && s.permits + Total(s.phases, HOLDING) == limit
    && multiset(BatchesOf(s.results)) == SettledBatches(s.batches, s.phases)
    && |s.errors| == DegradedCount(s.results)
    && (forall r | r in s.results :: Positioned(r))
  }

  lemma {:induction false} SettledUpdate(batches: seq<Batch>, phases: seq<Phase>, task: nat, p: Phase)
    requires |batches| == |phases| && task < |phases| && !phases[task].Settled?
    ensures SettledBatches(batches, phases[task := p])
         == SettledBatches(batches, phases) + if p.Settled? then multiset{batches[task]} else multiset{}
  {
    if task > 0 {
      assert phases[task := p][1..] == phases[1..][task - 1 := p];
      SettledUpdate(batches[1..], phases[1..], task - 1, p);
    }
  }

  lemma SettleKeepsInv(s: State, task: nat, report: Option<seq<Item>>, limit: nat)
    requires |s.phases| == |s.batches| && task < |s.phases| && !s.phases[task].Settled?
    requires forall i | 0 <= i < |s.phases| :: AttemptOk(s.phases[i])
    requires s.permits + Total(s.phases, HOLDING) == limit + HOLDING(s.phases[task])
    requires multiset(BatchesOf(s.results)) == SettledBatches(s.batches, s.phases)
    requires |s.errors| == DegradedCount(s.results)
    requires forall r | r in s.results :: Positioned(r)
    requires Positioned(BatchResult(s.batches[task], report))
    ensures Inv(Settle(s, task, report), limit)
  {
    hide Total, SettledBatches, Positioned;
    var s' := Settle(s, task, report);
    var result := BatchResult(s.batches[task], report);
    TotalUpdate(s.phases, task, Settled(result), HOLDING);
    SettledUpdate(s.batches, s.phases, task, Settled(result));
    assert BatchesOf(s'.results) == BatchesOf(s.results) + [result.batch];
    assert ButLast(s'.results) == s.results;
  }

  lemma MoveKeepsInv(s: State, s': State, task: nat, limit: nat)
    requires Inv(s, limit) && task < |s.phases| && !s.phases[task].Settled?
    requires |s'.phases| == |s.phases| && s'.phases == s.phases[task := s'.phases[task]]
    requires AttemptOk(s'.phases[task]) && !s'.phases[task].Settled?
    requires s'.permits + HOLDING(s'.phases[task]) == s.permits + HOLDING(s.phases[task])
    requires s' == s.(phases := s'.phases, permits := s'.permits)
    ensures Inv(s', limit)
  {
    TotalUpdate(s.phases, task, s'.phases[task], HOLDING);
    SettledUpdate(s.batches, s.phases, task, s'.phases[task]);
  }

  /** Every step of every interleaving keeps the invariant. */
  lemma StepKeepsInv(s: State, e: Event, limit: nat)
    requires Inv(s, limit) && Step(s, e).Some?
    ensures Inv(Step(s, e).value, limit)
    ensures Step(s, e).value.batches == s.batches
  {
    hide Total, SettledBatches, DegradedCount, BatchesOf;
    var task, s' := e.task, Step(s, e).value;
    match e
    case Prepared(_) => MoveKeepsInv(s, s', task, limit);
    case PrepareFails(_) => SettleKeepsInv(s, task, None, limit);
    case Acquires(_) => MoveKeepsInv(s, s', task, limit);
    case CallRaises(_) => SettleKeepsInv(s.(permits := s.permits + 1), task, None, limit);
    case Returns(_, output) =>
      if output != [] {
        SettleKeepsInv(s.(permits := s.permits + 1), task, Some(ToBatchReport(output, s.batches[task].start)), limit);
      } else if s.phases[task].attempt == 1 {
        MoveKeepsInv(s, s', task, limit);
      } else {
        SettleKeepsInv(s.(permits := s.permits + 1), task, None, limit);
      }
  }

  lemma {:induction false} InitTotals(n: nat, weight: Phase -> nat)
    requires weight(Preparing) == 0
    ensures Total(seq(n, _ => Preparing), weight) == 0
  {
    TotalZero(seq(n, _ => Preparing), weight);
  }

  lemma {:induction false} NoneSettled(batches: seq<Batch>, phases: seq<Phase>)
    requires |batches| == |phases| && forall i | 0 <= i < |phases| :: phases[i].Preparing?
    ensures SettledBatches(batches, phases) == multiset{}
  {
    if phases != [] {
      NoneSettled(batches[1..], phases[1..]);
    }
  }

  lemma InitInv(batches: seq<Batch>, limit: int)
    ensures Inv(Init(batches, limit), Limit(limit))
  {
    InitTotals(|batches|, HOLDING);
    NoneSettled(batches, Init(batches, limit).phases);
    assert BatchesOf([]) == [];
  }

  lemma {:induction false} RunKeepsInv(batches: seq<Batch>, limit: int, events: seq<Event>)
    requires Run(Init(batches, limit), events).Some?
    ensures Inv(Run(Init(batches, limit), events).value, Limit(limit))
    ensures Run(Init(batches, limit), events).value.batches == batches
  {
    if events == [] {
      InitInv(batches, limit);
    } else {
      RunKeepsInv(batches, limit, ButLast(events));
      StepKeepsInv(Run(Init(batches, limit), ButLast(events)).value, Last(events), Limit(limit));
    }
  }

  // ------------------------------------------------------------------- the theorems

  /** At most `max(1, limit)` batches are inside a model call, and permits and holders
      together never change. */
  lemma CallsBounded(batches: seq<Batch>, limit: int, events: seq<Event>)
    requires Run(Init(batches, limit), events).Some?
    ensures var s := Run(Init(batches, limit), events).value;
            && Total(s.phases, HOLDING) <= (if limit < 1 then 1 else limit)
            && s.permits + Total(s.phases, HOLDING) == (if limit < 1 then 1 else limit)
  {
    RunKeepsInv(batches, limit, events);
  }

  /** Every step uses up effort that is never given back, so the fan-out always ends. */
  lemma EffortDecreases(s: State, e: Event)
    requires Step(s, e).Some?
    requires forall i | 0 <= i < |s.phases| :: AttemptOk(s.phases[i])
    ensures Total(Step(s, e).value.phases, EFFORT) < Total(s.phases, EFFORT)
  {
    hide Total;
    var s' := Step(s, e).value;
    assert s'.phases == s.phases[e.task := s'.phases[e.task]];
    TotalUpdate(s.phases, e.task, s'.phases[e.task], EFFORT);
  }

  lemma {:induction false} InitEffort(n: nat)
    ensures Total(seq(n, _ => Preparing), EFFORT) == 5 * n
  {
    if n > 0 {
      assert seq(n, _ => Preparing)[1..] == seq(n - 1, _ => Preparing);
      InitEffort(n - 1);
    }
  }

  /** No interleaving has more than five steps for each batch. */
  lemma {:induction false} RunLength(batches: seq<Batch>, limit: int, events: seq<Event>)
    requires Run(Init(batches, limit), events).Some?
    ensures |events| + Total(Run(Init(batches, limit), events).value.phases, EFFORT) <= 5 * |batches|
  {
    if events == [] {
      InitEffort(|batches|);
    } else {
      RunLength(batches, limit, ButLast(events));
      RunKeepsInv(batches, limit, ButLast(events));
      EffortDecreases(Run(Init(batches, limit), ButLast(events)).value, Last(events));
    }
  }

  predicate AllSettled(s: State) {
    forall i | 0 <= i < |s.phases| :: s.phases[i].Settled?
  }

  lemma {:induction false} SomeHolder(phases: seq<Phase>) returns (i: nat)
    requires Total(phases, HOLDING) > 0
    ensures i < |phases| && phases[i].Calling?
  {
    if phases[0].Calling? {
      i := 0;
    } else {
      i := SomeHolder(phases[1..]);
      i := i + 1;
    }
  }

  /** The fan-out cannot get stuck: until every batch has settled some step is possible. */
  lemma Progress(s: State, limit: nat) returns (e: Event)
    requires Inv(s, limit) && limit > 0
    ensures !AllSettled(s) ==> Step(s, e).Some?
    ensures AllSettled(s) ==> forall e' :: Step(s, e').None?
  {
    e := Prepared(0);
    if !AllSettled(s) {
      var i :| 0 <= i < |s.phases| && !s.phases[i].Settled?;
      match s.phases[i]
      case Preparing => e := Prepared(i);
      case Calling(_) => e := CallRaises(i);
      case Waiting(_) =>
        if s.permits > 0 {
          e := Acquires(i);
        } else {
          var h := SomeHolder(s.phases);
          e := CallRaises(h);
        }
    }
  }

  function CallsOf(events: seq<Event>, task: nat): nat {
    if events == [] then 0
    else CallsOf(ButLast(events), task) + (if Last(events).Acquires? && Last(events).task == task then 1 else 0)
  }

  function CallsBefore(p: Phase): nat {
    match p
    case Preparing => 0
    case Waiting(attempt) => if attempt == 1 then 0 else 1
    case Calling(attempt) => if attempt == 1 then 1 else 2
    case Settled(_) => 2
  }

  lemma AtMostTwo(p: Phase)
    ensures CallsBefore(p) <= 2
  {
  }

  lemma CallStep(s: State, e: Event, task: nat)
    requires |s.phases| == |s.batches| && task < |s.phases| && AttemptOk(s.phases[task]) && Step(s, e).Some?
    ensures var s' := Step(s, e).value;
            && |s'.phases| == |s.phases|
            && CallsBefore(s.phases[task]) + (if e.Acquires? && e.task == task then 1 else 0)
               <= CallsBefore(s'.phases[task])
  {
    hide ToBatchReport;
  }

  /** Each batch calls the model at most twice. */
  lemma {:induction false} TwoCallsEach(batches: seq<Batch>, limit: int, events: seq<Event>, task: nat)
    requires Run(Init(batches, limit), events).Some? && task < |batches|
    ensures var s := Run(Init(batches, limit), events).value;
            |s.phases| == |batches| && CallsOf(events, task) <= CallsBefore(s.phases[task]) <= 2
  {
    if events != [] {
      hide Step, Init, CallsBefore;
      RunKeepsInv(batches, limit, ButLast(events));
      TwoCallsEach(batches, limit, ButLast(events), task);
      var s := Run(Init(batches, limit), ButLast(events)).value;
      CallStep(s, Last(events), task);
      AtMostTwo(Step(s, Last(events)).value.phases[task]);
    }
  }

  lemma {:induction false} AllSettledBatches(batches: seq<Batch>, phases: seq<Phase>)
    requires |batches| == |phases| && forall i | 0 <= i < |phases| :: phases[i].Settled?
    ensures SettledBatches(batches, phases) == multiset(batches)
  {
    if phases != [] {
      AllSettledBatches(batches[1..], phases[1..]);
      assert batches == [batches[0]] + batches[1..];
    }
  }

  /** When all batches have settled, whatever the interleaving: one result per batch, and
      as many errors as results without a report. */
  lemma OneResultPerBatch(batches: seq<Batch>, limit: int, events: seq<Event>)
    requires Run(Init(batches, limit), events).Some?
    requires AllSettled(Run(Init(batches, limit), events).value)
    ensures var s := Run(Init(batches, limit), events).value;
            && multiset(BatchesOf(s.results)) == multiset(batches)
            && |s.errors| == DegradedCount(s.results)
            && forall r | r in s.results :: Positioned(r)
  {
    var s := Run(Init(batches, limit), events).value;
    RunKeepsInv(batches, limit, events);
    AllSettledBatches(batches, s.phases);
  }

  /** How often the model has answered a batch with no evaluations. */
  function EmptyReturns(events: seq<Event>, task: nat): nat {
    if events == [] then 0
    else EmptyReturns(ButLast(events), task) + (if Last(events) == Returns(task, []) then 1 else 0)
  }

  /** One item for each evaluation of the model, in order and at its question. */
  predicate ReportOf(items: seq<Item>, output: seq<Evaluation>, start: nat) {
    && |items| == |output|
    && forall i | 0 <= i < |items| ::
         && items[i].questionIndex == start + i
         && items[i].score == output[i].score && items[i].feedback == output[i].feedback
  }

  /** Why a batch ended with this report, given what has happened. */
  ghost predicate Cause(report: Option<seq<Item>>, start: nat, task: nat, events: seq<Event>) {
    match report
    case Some(items) =>
      exists output | output != [] :: Returns(task, output) in events && ReportOf(items, output, start)
    case None => PrepareFails(task) in events || CallRaises(task) in events || EmptyReturns(events, task) >= 2
  }

  ghost predicate Explained(r: BatchResult, batches: seq<Batch>, events: seq<Event>) {
    exists task: nat :: task < |batches| && batches[task] == r.batch && Cause(r.report, r.batch.start, task, events)
  }

  lemma CauseKept(report: Option<seq<Item>>, start: nat, task: nat, events: seq<Event>, e: Event)
    requires Cause(report, start, task, events)
    ensures Cause(report, start, task, events + [e])
  {
    assert ButLast(events + [e]) == events;
  }

  lemma ExplainedKept(r: BatchResult, batches: seq<Batch>, events: seq<Event>, e: Event)
    requires Explained(r, batches, events)
    ensures Explained(r, batches, events + [e])
  {
    hide Cause;
    var task: nat :| task < |batches| && batches[task] == r.batch && Cause(r.report, r.batch.start, task, events);
    CauseKept(r.report, r.batch.start, task, events, e);
  }

  /** The empty answers a phase stands for. */
  predicate Attempts(p: Phase, emptyReturns: nat) {
    match p
    case Preparing => emptyReturns == 0
    case Waiting(attempt) => emptyReturns == if attempt == 1 then 0 else 1
    case Calling(attempt) => emptyReturns == if attempt == 1 then 0 else 1
    case Settled(_) => true
  }

  predicate AllAttempts(phases: seq<Phase>, events: seq<Event>) {
    forall task | 0 <= task < |phases| :: Attempts(phases[task], EmptyReturns(events, task))
  }

  lemma AttemptsStep(s: State, events: seq<Event>, e: Event)
    requires |s.phases| == |s.batches| && AllAttempts(s.phases, events) && Step(s, e).Some?
    requires forall i | 0 <= i < |s.phases| :: AttemptOk(s.phases[i])
    ensures AllAttempts(Step(s, e).value.phases, events + [e])
  {
    assert ButLast(events + [e]) == events;
    forall task: nat | task < |s.phases|
      ensures Attempts(Step(s, e).value.phases[task], EmptyReturns(events + [e], task))
    {
      assert Attempts(s.phases[task], EmptyReturns(events, task));
    }
  }

  /** The result a step adds, if it settles a batch, has its cause in the run. */
  lemma SettlingExplained(s: State, events: seq<Event>, e: Event)
    requires |s.phases| == |s.batches| && AllAttempts(s.phases, events) && Step(s, e).Some?
    requires forall i | 0 <= i < |s.phases| :: AttemptOk(s.phases[i])
    ensures var s' := Step(s, e).value;
            s'.results == s.results
            || (s'.results == s.results + [Last(s'.results)] && Explained(Last(s'.results), s.batches, events + [e]))
  {
    var s', all := Step(s, e).value, events + [e];
    assert ButLast(all) == events && Last(all) == e && e in all;
    assert Attempts(s.phases[e.task], EmptyReturns(events, e.task));
    if s'.results != s.results {
      var r := Last(s'.results);
      assert r.batch == s.batches[e.task];
      assert e.Returns? && r.report.Some? ==> ReportOf(r.report.value, e.output, r.batch.start);
      assert Cause(r.report, r.batch.start, e.task, all);
    }
  }

  /** Every report is what the model returned for that batch, item for item; and a batch is
      degraded only when preparing it failed, a call raised, or both answers were empty. */
  lemma {:induction false} ResultsExplained(batches: seq<Batch>, limit: int, events: seq<Event>)
    requires Run(Init(batches, limit), events).Some?
    ensures var s := Run(Init(batches, limit), events).value;
            && |s.phases| == |s.batches| && AllAttempts(s.phases, events)
            && forall r | r in s.results :: Explained(r, batches, events)
  {
    if events != [] {
      hide Step, Explained, AllAttempts;
      var before, e := ButLast(events), Last(events);
      assert events == before + [e];
      ResultsExplained(batches, limit, before);
      RunKeepsInv(batches, limit, before);
      RunKeepsInv(batches, limit, events);
      var s := Run(Init(batches, limit), before).value;
      AttemptsStep(s, before, e);
      SettlingExplained(s, before, e);
      forall r | r in s.results ensures Explained(r, batches, events) {
        ExplainedKept(r, batches, before, e);
      }
    }
  }

  /** End to end, for questions cut into batches of any size and any interleaving: each
      merged evaluation stands at its question's position exactly when the reducer hands
      the results over in batch order; in any order there is one item for each question. */
  lemma EvaluationAlignedIff(total: nat, batchSize: int, limit: int, events: seq<Event>, collected: seq<BatchResult>)
    requires var s := Run(Init(SplitBatches(0, total, batchSize), limit), events);
             s.Some? && AllSettled(s.value) && multiset(collected) == multiset(s.value.results)
    ensures AlignedFrom(MergedItems(collected), 0) <==> BatchesOf(collected) == SplitBatches(0, total, batchSize)
    ensures multiset(QuestionIndices(MergedItems(collected))) == multiset(Numbers(0, total))
    ensures |MergedItems(collected)| == total
  {
    var batches := SplitBatches(0, total, batchSize);
    var s := Run(Init(batches, limit), events).value;
    SplitBatchesContiguous(0, total, batchSize);
    OneResultPerBatch(batches, limit, events);
    PermutedBatches(collected, s.results);
    assert forall r | r in collected :: Positioned(r) by {
      forall r | r in collected ensures r in s.results { assert r in multiset(collected); }
    }
    MergedAlignedIff(collected, batches, total);
    NonemptyBatches(collected, batches, total);
    MergedIndices(collected);
    PositionsPermuted(BatchesOf(collected), batches);
    PositionsContiguous(batches, 0, total);
    NumbersAt(0, total);
    assert |QuestionIndices(MergedItems(collected))| == |multiset(Numbers(0, total))|;
  }

  lemma {:induction false} PermutedBatches(a: seq<BatchResult>, b: seq<BatchResult>)
    requires multiset(a) == multiset(b)
    ensures multiset(BatchesOf(a)) == multiset(BatchesOf(b))
    decreases |a|
  {
    assert |a| == |multiset(a)| == |multiset(b)| == |b|;
    if a == [] {
      assert BatchesOf(a) == BatchesOf(b);
    } else {
      hide BatchesOf, Without;
      var n := |a| - 1;
      assert a[n] in multiset(b);
      var p :| 0 <= p < |b| && b[p] == a[n];
      MultisetWithout(a, n);
      MultisetWithout(b, p);
      assert |Without(a, n)| < |a| by { assert |multiset(Without(a, n))| == |Without(a, n)|; }
      PermutedBatches(Without(a, n), Without(b, p));
      BatchesWithout(a, n);
      BatchesWithout(b, p);
    }
  }

  lemma BatchesWithout(a: seq<BatchResult>, p: nat)
    requires p < |a|
    ensures multiset(BatchesOf(a)) == multiset(BatchesOf(Without(a, p))) + multiset{a[p].batch}
  {
    MultisetWithout(BatchesOf(a), p);
    assert BatchesOf(Without(a, p)) == Without(BatchesOf(a), p);
  }
}
