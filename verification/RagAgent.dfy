/** The self-correcting retrieval loop of `backend/app/graphs/rag_agent.py`. */
module RagAgent {
  import opened Text
  import opened FirstOccurrences

  datatype Chunk = Chunk(content: string, score: real)

  const BY_CONTENT: Chunk -> string := (c: Chunk) => c.content

  const MAX_RETRIES := 2
  const MIN_CHUNKS_THRESHOLD := 2
  const MIN_SCORE_THRESHOLD := 0.5

  /** The chunks of the searches that did not fail, one after the other. */
  function Found(results: seq<Option<seq<Chunk>>>): seq<Chunk> {
    if results == [] then []
    else Found(ButLast(results)) + match Last(results) case Some(chunks) => chunks case None => []
  }

  /** `_multi_search`, given what the search for each sub-question came to. */
  method MultiSearch(results: seq<Option<seq<Chunk>>>) returns (deduped: seq<Chunk>)
    ensures deduped == FirstByKey(Found(results), BY_CONTENT)
    ensures exists positions ::
      && FirstPositions(Found(results), positions, BY_CONTENT)
      && deduped == Pick(Found(results), positions)
    ensures forall s: State | s.node == MultiSearching ::
              Step(s, MultiSearched(results)) == Some(s.(chunks := deduped, node := EvaluateQuality))
  {
    var allChunks: seq<Chunk> := [];
    for i := 0 to |results|
      invariant allChunks == Found(results[..i])
    {
      assert ButLast(results[..i + 1]) == results[..i];
      if results[i].Some? {
        allChunks := allChunks + results[i].value;
      }
    }
    assert results[..|results|] == results;
    var seen: set<string> := {};
    deduped := [];
    for i := 0 to |allChunks|
      invariant seen == Keys(allChunks[..i], BY_CONTENT)
      invariant deduped == FirstByKey(allChunks[..i], BY_CONTENT)
    {
      var chunk := allChunks[i];
      assert ButLast(allChunks[..i + 1]) == allChunks[..i] && Last(allChunks[..i + 1]) == chunk;
      KeysSnoc(allChunks[..i + 1], BY_CONTENT);
      if chunk.content !in seen {
        seen := seen + {chunk.content};
        deduped := deduped + [chunk];
      }
    }
    assert allChunks[..|allChunks|] == allChunks;
    ghost var positions := FirstByKeyPicks(allChunks, BY_CONTENT);
  }

  // ------------------------------------------------------------------ the graph

  datatype Node =
    AnalyzeQuery | DirectSearch | Decompose | MultiSearching | EvaluateQuality | RefineQuery | GenerateAnswer | End

  datatype State = State(node: Node, chunks: seq<Chunk>, retryCount: nat, qualityOk: bool, isComplex: bool)

  datatype Event =
    | Analyzed(isComplex: bool)
    | Searched(result: Option<seq<Chunk>>)              // None: the search failed or timed out
    | Decomposed
    | MultiSearched(results: seq<Option<seq<Chunk>>>)
    | Evaluated
    | Refined
    | Answered

  predicate GoodQuality(chunks: seq<Chunk>) {
    |chunks| >= MIN_CHUNKS_THRESHOLD && MaxScore(chunks) >= MIN_SCORE_THRESHOLD
  }

  function MaxScore(chunks: seq<Chunk>): real {
    if chunks == [] then 0.0
    else if |chunks| == 1 then chunks[0].score
    else
      var rest := MaxScore(chunks[1..]);
      if chunks[0].score > rest then chunks[0].score else rest
  }

  /** The best score passes exactly when some chunk's score does. */
  lemma {:induction false} MaxScorePasses(chunks: seq<Chunk>, threshold: real)
    requires chunks != []
    ensures MaxScore(chunks) >= threshold <==> exists c :: c in chunks && c.score >= threshold
  {
    assert chunks[0] in chunks;
    if |chunks| > 1 {
      MaxScorePasses(chunks[1..], threshold);
      assert chunks == [chunks[0]] + chunks[1..];
    }
  }

  function RouteQuality(s: State): Node {
    if s.qualityOk || s.retryCount >= MAX_RETRIES then GenerateAnswer else RefineQuery
  }

  function Step(s: State, e: Event): Option<State> {
    match (s.node, e)
    case (AnalyzeQuery, Analyzed(isComplex)) =>
      Some(s.(isComplex := isComplex, node := if isComplex then Decompose else DirectSearch))
    case (DirectSearch, Searched(result)) =>
      Some(s.(chunks := match result case Some(chunks) => chunks case None => [], node := EvaluateQuality))
    case (Decompose, Decomposed) => Some(s.(node := MultiSearching))
    case (MultiSearching, MultiSearched(results)) =>
      Some(s.(chunks := FirstByKey(Found(results), BY_CONTENT), node := EvaluateQuality))
    case (EvaluateQuality, Evaluated) =>
      var s' := s.(qualityOk := GoodQuality(s.chunks));
      Some(s'.(node := RouteQuality(s')))
    case (RefineQuery, Refined) => Some(s.(retryCount := s.retryCount + 1, node := DirectSearch))
    case (GenerateAnswer, Answered) => Some(s.(node := End))
    case _ => None
  }

  const START := State(AnalyzeQuery, [], 0, false, false)

  function Run(events: seq<Event>): Option<State> {
    if events == [] then Some(START)
    else
      match Run(ButLast(events))
      case Some(s) => Step(s, Last(events))
      case None => None
  }

  function Count(events: seq<Event>, kind: Event -> bool): nat {
    if events == [] then 0 else Count(ButLast(events), kind) + if kind(Last(events)) then 1 else 0
  }

  const IS_REFINED: Event -> bool := (e: Event) => e.Refined?
  const IS_EVALUATED: Event -> bool := (e: Event) => e.Evaluated?
  const IS_MULTI_SEARCHED: Event -> bool := (e: Event) => e.MultiSearched?

  /** The remaining work: two more rounds at most, and the nodes still ahead in this one. */
  function Measure(s: State): nat {
    var rounds := if s.retryCount <= MAX_RETRIES then MAX_RETRIES - s.retryCount else 0;
    4 * rounds +
    match s.node
    case AnalyzeQuery => 6
    case Decompose => 5
    case MultiSearching => 4
    case DirectSearch => 4
    case EvaluateQuality => 3
    case RefineQuery => 1
    case GenerateAnswer => 1
    case End => 0
  }

  predicate Inv(s: State) {
    && s.retryCount <= MAX_RETRIES
    && (s.node == RefineQuery ==> !s.qualityOk && s.retryCount < MAX_RETRIES)
    && (s.node == GenerateAnswer || s.node == End ==>
          s.qualityOk == GoodQuality(s.chunks) && (s.qualityOk || s.retryCount == MAX_RETRIES))
    && (s.node in {AnalyzeQuery, Decompose, MultiSearching} ==> s.retryCount == 0)
  }

  lemma StepFacts(s: State, e: Event)
    requires Inv(s) && Step(s, e).Some?
    ensures Inv(Step(s, e).value)
    ensures Measure(Step(s, e).value) < Measure(s)
  {
    hide GoodQuality, FirstByKey, Found;
  }

  /** Every run refines at most twice and evaluates at most three times, searches for
      sub-questions at most once, and answers only on good quality or after exactly two
      refinements. */
  lemma {:induction false} RagRuns(events: seq<Event>)
    requires Run(events).Some?
    ensures var s := Run(events).value;
            && Inv(s)
            && |events| + Measure(s) <= Measure(START)
            && Count(events, IS_REFINED) == s.retryCount <= 2
            && Count(events, IS_EVALUATED) <= 3
            && Count(events, IS_EVALUATED)
               == s.retryCount + (if s.node in {RefineQuery, GenerateAnswer, End} then 1 else 0)
            && Count(events, IS_MULTI_SEARCHED)
               <= (if s.node in {AnalyzeQuery, Decompose, MultiSearching} then 0 else 1)
            && (s.node == End ==> GoodQuality(s.chunks) || s.retryCount == 2)
  {
    if events != [] {
      RagRuns(ButLast(events));
      StepFacts(Run(ButLast(events)).value, Last(events));
      hide GoodQuality, FirstByKey, Found, Measure;
    }
  }

  // ----------------------------------------------------- what is searched and answered from

  predicate IsSearch(e: Event) {
    e.Searched? || e.MultiSearched?
  }

  /** What each search found: nothing if it failed. */
  function Lists(results: seq<Option<seq<Chunk>>>): seq<seq<Chunk>> {
    seq(|results|, i requires 0 <= i < |results| => if results[i].Some? then results[i].value else [])
  }

  lemma {:induction false} FoundIs(results: seq<Option<seq<Chunk>>>)
    ensures Found(results) == Flatten(Lists(results))
  {
    if results != [] {
      var last := if Last(results).Some? then Last(results).value else [];
      FoundIs(ButLast(results));
      assert Lists(results) == Lists(ButLast(results)) + [last];
      FlattenSnoc(Lists(ButLast(results)), last);
    }
  }

  /** Of each content the first chunk, in order. */
  predicate FirstContents(all: seq<Chunk>, positions: seq<nat>) {
    && AllBelow(positions, |all|)
    && (forall a, b | 0 <= a < b < |positions| :: positions[a] < positions[b])
    && (forall i | 0 <= i < |all| :: i in positions <==> forall j | 0 <= j < i :: all[j].content != all[i].content)
  }

  /** The chunks are those of the search `e`: what it found, or nothing if it failed; for
      several searches, of all they found one after the other, the first of each content. */
  ghost predicate ChunksOf(chunks: seq<Chunk>, e: Event) {
    match e
    case Searched(result) => chunks == (if result.Some? then result.value else [])
    case MultiSearched(results) =>
      exists positions ::
        FirstContents(Flatten(Lists(results)), positions) && chunks == Pick(Flatten(Lists(results)), positions)
    case _ => false
  }

  lemma ContentsPicked(all: seq<Chunk>) returns (positions: seq<nat>)
    ensures FirstContents(all, positions) && FirstByKey(all, BY_CONTENT) == Pick(all, positions)
  {
    positions := FirstByKeyPicks(all, BY_CONTENT);
    hide FirstByKey;
    forall i | 0 <= i < |all|
      ensures i in positions <==> forall j | 0 <= j < i :: all[j].content != all[i].content
    {
      assert i in positions <==> IsFirst(all, i, BY_CONTENT);
    }
  }

  lemma SearchLeaves(s: State, e: Event)
    requires IsSearch(e) && Step(s, e).Some?
    ensures ChunksOf(Step(s, e).value.chunks, e) && Step(s, e).value.node == EvaluateQuality
  {
    hide FirstContents, FirstByKey, Found, Lists, Pick;
    if e.MultiSearched? {
      FoundIs(e.results);
      var positions := ContentsPicked(Found(e.results));
    }
  }

  /** Event `k` is the last search, and its chunks are still there; if it is -1 there was none. */
  ghost predicate LastSearched(events: seq<Event>, k: int, s: State) {
    && -1 <= k < |events| && (forall j | k < j < |events| :: !IsSearch(events[j]))
    && if k == -1 then s.node in {AnalyzeQuery, DirectSearch, Decompose, MultiSearching} && s.chunks == []
       else IsSearch(events[k]) && ChunksOf(s.chunks, events[k])
  }

  lemma SearchedSnoc(before: seq<Event>, k: int, s: State, e: Event)
    requires LastSearched(before, k, s) && Step(s, e).Some?
    ensures LastSearched(before + [e], if IsSearch(e) then |before| else k, Step(s, e).value)
  {
    hide ChunksOf, Step;
    assert forall j | 0 <= j < |before| :: (before + [e])[j] == before[j];
    if IsSearch(e) {
      SearchLeaves(s, e);
    } else {
      OtherLeaves(s, e);
    }
  }

  /** From the first search on the chunks of a run are those of its last search: nothing
      that was found is lost before the answer, and nothing else is added. */
  lemma {:induction false} ChunksFromLastSearch(events: seq<Event>) returns (k: int)
    requires Run(events).Some?
    ensures LastSearched(events, k, Run(events).value)
  {
    if events == [] {
      NothingSearched();
      k := -1;
    } else {
      RunStep(events);
      hide LastSearched, Step, Run, IsSearch;
      var before, e := ButLast(events), Last(events);
      var k' := ChunksFromLastSearch(before);
      SearchedSnoc(before, k', Run(before).value, e);
      assert events == before + [e];
      k := if IsSearch(e) then |before| else k';
    }
  }

  lemma NothingSearched()
    ensures Run([]) == Some(START) && LastSearched([], -1, START)
  {
  }

  lemma RunStep(events: seq<Event>)
    requires events != [] && Run(events).Some?
    ensures Run(ButLast(events)).Some? && Step(Run(ButLast(events)).value, Last(events)) == Run(events)
  {
  }

  /** No other step touches the chunks, or comes behind a search before there is one. */
  lemma OtherLeaves(s: State, e: Event)
    requires !IsSearch(e) && Step(s, e).Some?
    ensures Step(s, e).value.chunks == s.chunks
    ensures s.node in {AnalyzeQuery, DirectSearch, Decompose, MultiSearching} ==>
              Step(s, e).value.node in {DirectSearch, Decompose, MultiSearching}
  {
    hide GoodQuality;
  }

  /** An answer before the second refinement has at least two chunks, one of them with a score
      of a half or more, and they are what the last search found; after two refinements it is
      given in any case, and before that no poor result is answered. */
  lemma AnswerEarned(events: seq<Event>) returns (k: nat)
    requires Run(events).Some? && Run(events).value.node in {GenerateAnswer, End}
    ensures var s := Run(events).value;
            && k < |events| && IsSearch(events[k]) && ChunksOf(s.chunks, events[k])
            && (forall j | k < j < |events| :: !IsSearch(events[j]))
            && (Count(events, IS_REFINED) < 2 ==>
                  |s.chunks| >= 2 && exists c | c in s.chunks :: c.score >= 0.5)
            && (s.qualityOk <==> |s.chunks| >= 2 && exists c | c in s.chunks :: c.score >= 0.5)
  {
    hide ChunksOf;
    RagRuns(events);
    k := ChunksFromLastSearch(events);
    var chunks := Run(events).value.chunks;
    if chunks != [] {
      MaxScorePasses(chunks, 0.5);
    }
  }

  /** Sub-questions are searched exactly for questions found to be complex, and only at first. */
  lemma {:induction false} ComplexAsked(events: seq<Event>)
    requires Run(events).Some? && |events| >= 2
    ensures events[0].Analyzed?
    ensures if events[0].isComplex then events[1].Decomposed? else events[1].Searched?
    ensures |events| >= 3 && events[0].isComplex ==> events[2].MultiSearched?
  {
    hide FirstByKey, Found, GoodQuality;
    RunPrefix(events, 3);
    RunPrefix(events, 2);
    RunPrefix(events, 1);
    assert Run([]) == Some(START) && ButLast(events[..1]) == [];
    assert ButLast(events[..2]) == events[..1];
    assert |events| >= 3 ==> ButLast(events[..3]) == events[..2];
  }

  lemma {:induction false} RunPrefix(events: seq<Event>, n: nat)
    requires Run(events).Some?
    ensures n <= |events| ==> Run(events[..n]).Some?
  {
    if n < |events| {
      RunPrefix(ButLast(events), n);
      assert ButLast(events)[..n] == events[..n];
    } else if n == |events| {
      assert events[..n] == events;
    }
  }

  /** A run never gets stuck before the answer. */
  lemma Progress(s: State) returns (e: Event)
    ensures s.node != End <==> Step(s, e).Some?
    ensures s.node == End ==> forall e' :: Step(s, e').None?
  {
    e := match s.node
      case AnalyzeQuery => Analyzed(false)
      case DirectSearch => Searched(None)
      case Decompose => Decomposed
      case MultiSearching => MultiSearched([])
      case EvaluateQuality => Evaluated
      case RefineQuery => Refined
      case GenerateAnswer => Answered
      case End => Answered;
  }
}
