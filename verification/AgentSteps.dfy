/** What the steps of a turn do to the chat, the memory and the report, told by the messages,
    calls and records themselves. */
module AgentSteps {
  import opened Text
  import opened AgentMemory
  import opened AgentGraph
  import opened AgentRuns
  import opened AgentTurns
  import opened FirstOccurrences

  // ------------------------------------------------------------------------- the chat

  predicate Increasing(positions: seq<nat>) {
    forall a, b | 0 <= a < b < |positions| :: positions[a] < positions[b]
  }

  /** The positions of the elements that are kept, in order. */
  predicate PositionsOf<T>(xs: seq<T>, positions: seq<nat>, keep: T -> bool) {
    && AllBelow(positions, |xs|) && Increasing(positions)
    && forall i | 0 <= i < |xs| :: i in positions <==> keep(xs[i])
  }

  lemma PositionsSnoc<T>(xs: seq<T>, earlier: seq<nat>, keep: T -> bool)
    requires xs != [] && PositionsOf(ButLast(xs), earlier, keep)
    ensures PositionsOf(xs, if keep(Last(xs)) then earlier + [|xs| - 1] else earlier, keep)
  {
    var n := |xs| - 1;
    assert forall i | 0 <= i < n :: ButLast(xs)[i] == xs[i];
    assert n !in earlier;
  }

  const NOT_SYSTEM: Message -> bool := (m: Message) => !m.System?

  lemma {:induction false} WithoutSystemPicks(messages: seq<Message>) returns (positions: seq<nat>)
    ensures PositionsOf(messages, positions, NOT_SYSTEM) && WithoutSystem(messages) == Pick(messages, positions)
  {
    if messages == [] {
      positions := [];
    } else {
      var before, last := ButLast(messages), Last(messages);
      assert messages == before + [last];
      var earlier := WithoutSystemPicks(before);
      hide Increasing;
      WithoutSystemAppend(before, [last]);
      assert WithoutSystem([last]) == if last.System? then [] else [last] by {
        assert WithoutSystem([last][1..]) == [];
      }
      PositionsSnoc(messages, earlier, NOT_SYSTEM);
      PickStep(messages, earlier);
      positions := if last.System? then earlier else earlier + [|messages| - 1];
    }
  }

  /** A turn starts with one system message, the new one, in front of every other message the
      chat had, in order. */
  lemma ChatRenewed(s: State, prompt: string) returns (positions: seq<nat>)
    requires s.node == InitContext
    ensures Step(s, Initialise(prompt)).Some?
    ensures var chat := Step(s, Initialise(prompt)).value.messages;
            && chat != [] && chat[0] == System(prompt)
            && Increasing(positions)
            && (forall i: nat :: i in positions <==> i < |s.messages| && !s.messages[i].System?)
            && |chat| == |positions| + 1
            && (forall j | 0 <= j < |positions| ::
                  positions[j] < |s.messages| && chat[j + 1] == s.messages[positions[j]])
            && (forall j | 0 < j < |chat| :: !chat[j].System?)
  {
    positions := WithoutSystemPicks(s.messages);
    hide WithoutSystem, Increasing;
    assert forall j | 0 <= j < |positions| :: positions[j] in positions;
    var chat := Step(s, Initialise(prompt)).value.messages;
    forall j | 0 < j < |chat| ensures !chat[j].System? {
      assert positions[j - 1] in positions;
      assert chat[j] == s.messages[positions[j - 1]];
    }
  }

  /** A turn starts from the memory of the one before, with a trace of its own. */
  lemma MemoryAtStart(s: State, prompt: string)
    requires s.node == InitContext
    ensures var s' := Step(s, Initialise(prompt)).value;
            && s'.memory == s.memory.(trace := [TraceEntry(0, "init_context")])
            && s'.node == AgentLoop && s'.steps == 0 && !s'.finished
  {
    hide WithoutSystem;
  }

  /** What each step leaves alone: only a new turn takes messages away, only a round of tools
      and the trace change the memory, only the end has a report. */
  lemma StepLeaves(s: State, e: Event)
    requires Step(s, e).Some?
    ensures var s' := Step(s, e).value;
            && s'.maxTurns == s.maxTurns
            && (!e.Initialise? ==> s.messages <= s'.messages && s.memory.trace <= s'.memory.trace)
            && (!e.Merges? ==> s'.memory == s.memory.(trace := s'.memory.trace))
            && (!e.Reports? ==> s'.report == s.report)
            && (e.Stops? || e.Fails? ==> s' == s.(node := Finalize, finished := true))
            && (e.Completes? ==> s'.messages == s.messages && s'.memory == s.memory && s'.steps == s.steps)
            && (e.Merges? ==> s'.messages == s.messages + s.toolMessages && s'.steps == s.steps)
  {
    hide LimitReached, Signals, InitMessages, EffectOf;
    if e.Merges? {
      MergedSettingsAndTrace(s.memory, SortBy(s.toolEffects, BY_INDEX), Difficulty);
    }
  }

  /** The system message the turn started with, and no other. */
  predicate SystemFirst(messages: seq<Message>, prompt: string) {
    && messages != [] && messages[0] == System(prompt)
    && forall i | 0 < i < |messages| :: !messages[i].System?
  }

  predicate ToolsOnly(messages: seq<Message>) {
    forall m | m in messages :: m.Tool?
  }

  lemma StepKeepsSystem(s: State, e: Event, prompt: string)
    requires SystemFirst(s.messages, prompt) && ToolsOnly(s.toolMessages) && s.node != InitContext && Step(s, e).Some?
    ensures var s' := Step(s, e).value;
            SystemFirst(s'.messages, prompt) && ToolsOnly(s'.toolMessages) && s'.node != InitContext
  {
    hide InitMessages, LimitReached, Signals, MergeEffects, EffectOf;
    match e
    case Merges =>
      forall i | |s.messages| <= i < |s.messages + s.toolMessages|
        ensures !(s.messages + s.toolMessages)[i].System?
      {
        assert s.toolMessages[i - |s.messages|] in s.toolMessages;
      }
    case _ =>
  }

  /** In every run of every turn, from the first step on, the chat has one system message, at
      the front: the one made for this turn. */
  lemma {:induction false} OneSystemMessage(start: State, events: seq<Event>)
    requires TurnStart(start) && Run(start, events).Some? && events != []
    ensures events[0].Initialise?
    ensures var s := Run(start, events).value;
            && s.node != InitContext && ToolsOnly(s.toolMessages)
            && SystemFirst(s.messages, events[0].prompt)
  {
    var before := ButLast(events);
    if before == [] {
      assert Run(start, before) == Some(start) && Last(events) == events[0];
      var positions := ChatRenewed(start, events[0].prompt);
    } else {
      hide Step, SystemFirst;
      OneSystemMessage(start, before);
      assert before[0] == events[0];
      StepKeepsSystem(Run(start, before).value, Last(events), events[0].prompt);
    }
  }

  // ---------------------------------------------------------------------- when a turn ends

  /** The model is called below 30 steps and while questions are left: fewer than the limit,
      and on the last one only if some category has fewer than two scores. */
  lemma ModelCalledIff(s: State, content: string, calls: seq<Call>)
    ensures var scores := s.memory.scores;
            var goesOn := s.steps < 30 && s.memory.turnCount < s.maxTurns
                          && (s.memory.turnCount < s.maxTurns - 1 || exists c | c in scores :: |scores[c]| < 2);
            && (Step(s, Replies(content, calls)).Some? <==> s.node == AgentLoop && goesOn)
            && (Step(s, Fails).Some? <==> s.node == AgentLoop && goesOn)
            && (Step(s, Stops).Some? <==> s.node == AgentLoop && !goesOn)
  {
  }

  /** A reply joins the chat. The end signal anywhere in its text, or no call, ends the turn;
      otherwise exactly its calls are run, and it counts as a step. */
  lemma ReplyEnds(s: State, content: string, calls: seq<Call>)
    requires Shape(s) && Step(s, Replies(content, calls)).Some?
    ensures var s' := Step(s, Replies(content, calls)).value;
            && s'.messages == s.messages + [Ai(content, calls)]
            && s'.memory == s.memory.(trace := s.memory.trace + [TraceEntry(s.steps + 1, "agent_loop")])
            && (s'.node == Finalize <==> calls == [] || exists a, b :: content == a + "END_INTERVIEW" + b)
            && (s'.node == Finalize ==> s'.finished)
            && (s'.node != Finalize ==>
                  s'.node == ExecuteTools && !s'.finished && Calls(s') == calls && s'.steps == s.steps + 1)
            && s'.arrived == []
  {
    hide LimitReached;
    SignalsIff(content);
    var s' := Step(s, Replies(content, calls)).value;
    assert Last(s'.messages) == Ai(content, calls);
    hide Signals;
  }

  lemma SignalsIff(content: string)
    ensures Signals(content) <==> exists a, b :: content == a + "END_INTERVIEW" + b
  {
    hide IndexOf;
    FoundIff(content, "END_INTERVIEW");
  }

  /** A turn that starts with no question left calls no model, runs no tool and leaves the
      history as it was. */
  lemma {:induction false} NoQuestionLeft(start: State, events: seq<Event>)
    requires TurnStart(start) && Run(start, events).Some? && start.memory.turnCount >= start.maxTurns
    ensures var s := Run(start, events).value;
            && ModelCalls(events) == 0 && s.node in {InitContext, AgentLoop, Finalize, End}
            && s.maxTurns == start.maxTurns
            && s.memory == start.memory.(trace := s.memory.trace)
  {
    if events != [] {
      NoQuestionLeft(start, ButLast(events));
      var s := Run(start, ButLast(events)).value;
      if Last(events).Replies? {
        ModelCalledIff(s, Last(events).content, Last(events).calls);
      } else {
        ModelCalledIff(s, "", []);
      }
      hide ShouldEnd, InitMessages;
    }
  }

  // --------------------------------------------------------------------- what a round leaves

  /** Tools are known by their names; what they come to counts only for their own kind. */
  lemma EvaluatesIs(call: Call, outcome: ToolOutcome)
    ensures Evaluates(call, outcome) <==> call.name == "evaluate_answer" && outcome.Evaluation?
  {
  }

  lemma EffectSettings(index: nat, call: Call, outcome: ToolOutcome, key: Setting)
    ensures var others := EffectOf(index, call, outcome).effect.others;
            && (key in others <==>
                  if key == Difficulty
                  then call.name == "adjust_strategy" && outcome.Strategy? && outcome.difficulty != ""
                  else call.name == "generate_question" && outcome.Question?)
            && (key in others && key == CurrentQuestion ==> others[key] == outcome.question)
            && (key in others && key == CurrentCategory ==> others[key] == outcome.category)
            && (key in others && key == Difficulty ==> others[key] == outcome.difficulty)
  {
  }

  lemma {:induction false} LastSettingIs(effects: seq<ToolEffect>, key: Setting)
    ensures LastSetting(effects, key).None? <==> forall j | 0 <= j < |effects| :: key !in effects[j].effect.others
    ensures forall k | 0 <= k < |effects| && key in effects[k].effect.others
                       && (forall j | k < j < |effects| :: key !in effects[j].effect.others) ::
              LastSetting(effects, key) == Some(effects[k].effect.others[key])
  {
    if effects != [] {
      var before := ButLast(effects);
      LastSettingIs(before, key);
      assert forall j | 0 <= j < |before| :: before[j] == effects[j];
      assert Last(effects) == effects[|effects| - 1];
    }
  }

  /** Call `k` is the last of the round to set this. */
  predicate LastToSet(calls: seq<Call>, outcomes: seq<ToolOutcome>, name: string, k: int)
    requires |outcomes| == |calls|
  {
    && 0 <= k < |calls| && Sets(calls[k], outcomes[k], name)
    && forall j | k < j < |calls| :: !Sets(calls[j], outcomes[j], name)
  }

  predicate Sets(call: Call, outcome: ToolOutcome, name: string) {
    && call.name == name
    && (name == "generate_question" ==> outcome.Question?)
    && (name == "adjust_strategy" ==> outcome.Strategy? && outcome.difficulty != "")
  }

  lemma EffectKey(calls: seq<Call>, outcomes: seq<ToolOutcome>, i: nat, key: Setting)
    requires |outcomes| == |calls| && i < |calls|
    ensures key in RoundEffects(calls, outcomes)[i].effect.others
       <==> Sets(calls[i], outcomes[i], if key == Difficulty then "adjust_strategy" else "generate_question")
  {
    EffectSettings(i, calls[i], outcomes[i], key);
    hide EffectOf;
  }

  /** After a round, in whatever order its tools complete, the current question and its
      category are those of the last question generated, in call order, and the difficulty
      that of the last adjustment that names one; each is as before if there is none. */
  lemma RoundSettings(start: State, outcomes: seq<ToolOutcome>, order: seq<nat>)
    requires RoundStart(start) && |outcomes| == |Calls(start)| == |order| && DistinctBelow(order, |order|)
    ensures Run(start, Completions(order, outcomes) + [Merges]).Some?
    ensures var before, after, calls := start.memory.settings,
              Run(start, Completions(order, outcomes) + [Merges]).value.memory.settings, Calls(start);
            && (forall k | LastToSet(calls, outcomes, "generate_question", k) ::
                  && SettingOf(after, CurrentQuestion) == Some(outcomes[k].question)
                  && SettingOf(after, CurrentCategory) == Some(outcomes[k].category))
            && (forall k | LastToSet(calls, outcomes, "adjust_strategy", k) ::
                  SettingOf(after, Difficulty) == Some(outcomes[k].difficulty))
            && ((forall j | 0 <= j < |calls| :: !Sets(calls[j], outcomes[j], "generate_question")) ==>
                  SettingOf(after, CurrentQuestion) == SettingOf(before, CurrentQuestion)
                  && SettingOf(after, CurrentCategory) == SettingOf(before, CurrentCategory))
            && ((forall j | 0 <= j < |calls| :: !Sets(calls[j], outcomes[j], "adjust_strategy")) ==>
                  SettingOf(after, Difficulty) == SettingOf(before, Difficulty))
  {
    hide *;
    RoundConfluent(start, outcomes, order);
    SettingAfter(start.memory, Calls(start), outcomes, CurrentQuestion);
    SettingAfter(start.memory, Calls(start), outcomes, CurrentCategory);
    SettingAfter(start.memory, Calls(start), outcomes, Difficulty);
  }

  lemma SettingAfter(m: Memory, calls: seq<Call>, outcomes: seq<ToolOutcome>, key: Setting)
    requires |outcomes| == |calls|
    ensures var name := if key == Difficulty then "adjust_strategy" else "generate_question";
            var after := ApplyAll(m, RoundEffects(calls, outcomes)).settings;
            && (forall k | LastToSet(calls, outcomes, name, k) ::
                  && (key == CurrentQuestion ==> SettingOf(after, key) == Some(outcomes[k].question))
                  && (key == CurrentCategory ==> SettingOf(after, key) == Some(outcomes[k].category))
                  && (key == Difficulty ==> SettingOf(after, key) == Some(outcomes[k].difficulty)))
            && ((forall j | 0 <= j < |calls| :: !Sets(calls[j], outcomes[j], name)) ==>
                  SettingOf(after, key) == SettingOf(m.settings, key))
  {
    hide ApplyAll, SettingOf, EffectOf;
    var name := if key == Difficulty then "adjust_strategy" else "generate_question";
    var effects := RoundEffects(calls, outcomes);
    MergedSettingsAndTrace(m, effects, key);
    LastSettingIs(effects, key);
    forall i | 0 <= i < |calls| ensures key in effects[i].effect.others <==> Sets(calls[i], outcomes[i], name) {
      EffectKey(calls, outcomes, i, key);
    }
    forall k | LastToSet(calls, outcomes, name, k)
      ensures LastSetting(effects, key) == Some(effects[k].effect.others[key])
      ensures key == CurrentQuestion ==> effects[k].effect.others[key] == outcomes[k].question
      ensures key == CurrentCategory ==> effects[k].effect.others[key] == outcomes[k].category
      ensures key == Difficulty ==> effects[k].effect.others[key] == outcomes[k].difficulty
    {
      EffectSettings(k, calls[k], outcomes[k], key);
    }
  }

  function EvaluationCalls(calls: seq<Call>, outcomes: seq<ToolOutcome>): set<int>
    requires |outcomes| == |calls|
  {
    set i | 0 <= i < |calls| && calls[i].name == "evaluate_answer" && outcomes[i].Evaluation?
  }

  /** After a round the turn count has risen by its evaluations, and the trace has one entry
      per call, in call order, with the name of the tool. */
  lemma RoundCounted(start: State, outcomes: seq<ToolOutcome>, order: seq<nat>)
    requires RoundStart(start) && |outcomes| == |Calls(start)| == |order| && DistinctBelow(order, |order|)
    ensures Run(start, Completions(order, outcomes) + [Merges]).Some?
    ensures var before, after, calls :=
              start.memory, Run(start, Completions(order, outcomes) + [Merges]).value.memory, Calls(start);
            && after.turnCount == before.turnCount
               + |EvaluationCalls(calls, outcomes)|
            && |after.trace| == |before.trace| + |calls| && before.trace <= after.trace
            && (forall i | 0 <= i < |calls| :: after.trace[|before.trace| + i] == TraceEntry(0, calls[i].name))
  {
    hide *;
    var calls := Calls(start);
    var effects := RoundEffects(calls, outcomes);
    RoundConfluent(start, outcomes, order);
    MergedSettingsAndTrace(start.memory, effects, Difficulty);
    TracesAre(calls, outcomes);
    RoundAccounted(calls, outcomes);
    AccountsBalance(start.memory, effects);
    TurnsOfRound(calls, outcomes);
  }

  lemma TracesAre(calls: seq<Call>, outcomes: seq<ToolOutcome>)
    requires |outcomes| == |calls|
    ensures var traces := Traces(RoundEffects(calls, outcomes));
            |traces| == |calls| && forall i | 0 <= i < |calls| :: traces[i] == TraceEntry(0, calls[i].name)
  {
    hide SideEffectOf;
  }

  lemma RoundAccounted(calls: seq<Call>, outcomes: seq<ToolOutcome>)
    requires |outcomes| == |calls|
    ensures forall e | e in RoundEffects(calls, outcomes) :: Accounted(e)
  {
    hide EffectOf, Accounted;
    var effects := RoundEffects(calls, outcomes);
    forall e | e in effects ensures Accounted(e) {
      var i :| 0 <= i < |effects| && effects[i] == e;
      EffectAccounted(i, calls[i], outcomes[i]);
    }
  }

  lemma {:induction false} TurnsOfRound(calls: seq<Call>, outcomes: seq<ToolOutcome>)
    requires |outcomes| == |calls|
    ensures TurnsAdded(RoundEffects(calls, outcomes))
         == |EvaluationCalls(calls, outcomes)|
  {
    if calls == [] {
      assert EvaluationCalls(calls, outcomes) == {};
    } else {
      hide RoundEffects, EffectOf;
      var calls', outcomes' := ButLast(calls), ButLast(outcomes);
      TurnsOfRound(calls', outcomes');
      RoundEffectsSnoc(calls, outcomes);
      EffectTurns(|calls| - 1, Last(calls), Last(outcomes));
      EvaluationsSnoc(calls, outcomes);
    }
  }

  lemma EvaluationsSnoc(calls: seq<Call>, outcomes: seq<ToolOutcome>)
    requires |outcomes| == |calls| && calls != []
    ensures |EvaluationCalls(calls, outcomes)|
         == |EvaluationCalls(ButLast(calls), ButLast(outcomes))|
            + if Last(calls).name == "evaluate_answer" && Last(outcomes).Evaluation? then 1 else 0
  {
    var last, calls', outcomes' := |calls| - 1, ButLast(calls), ButLast(outcomes);
    var all, before := EvaluationCalls(calls, outcomes), EvaluationCalls(calls', outcomes');
    var counts := calls[last].name == "evaluate_answer" && outcomes[last].Evaluation?;
    forall i ensures i in all <==> (i in before || (i == last && counts)) {
      if 0 <= i < last { assert calls'[i] == calls[i] && outcomes'[i] == outcomes[i]; }
    }
    assert last !in before;
    assert all == if last in all then before + {last} else before;
  }

  lemma EffectTurns(index: nat, call: Call, outcome: ToolOutcome)
    ensures EffectOf(index, call, outcome).effect.turnDelta
         == if call.name == "evaluate_answer" && outcome.Evaluation? then 1 else 0
  {
  }

  // ------------------------------------------------------------------------- the report

  /** The sum, for what it is: nothing comes to zero, and each number adds to it. */
  lemma {:induction false} SumSnoc(xs: seq<int>, x: int)
    ensures Sum([]) == 0
    ensures Sum(xs + [x]) == Sum(xs) + x
  {
    if xs == [] {
      assert xs + [x] == [x] && [x][1..] == [];
    } else {
      assert (xs + [x])[0] == xs[0] && (xs + [x])[1..] == xs[1..] + [x];
      SumSnoc(xs[1..], x);
    }
  }

  predicate HasScore(r: QaRecord) {
    "score" in r.fields && r.fields["score"].Num?
  }

  lemma {:induction false} ScoredAppend(a: seq<QaRecord>, b: seq<QaRecord>)
    ensures Scored(a + b) == Scored(a) + Scored(b)
  {
    if a == [] {
      assert a + b == b;
    } else {
      assert (a + b)[1..] == a[1..] + b;
      ScoredAppend(a[1..], b);
    }
  }

  const HAS_SCORE: QaRecord -> bool := (r: QaRecord) => HasScore(r)

  function ScoreOf(r: QaRecord): int
    requires HasScore(r)
  {
    r.fields["score"].n
  }

  function ScoresAt(qa: seq<QaRecord>, positions: seq<nat>): seq<int>
    requires forall j | 0 <= j < |positions| :: positions[j] < |qa| && HasScore(qa[positions[j]])
  {
    seq(|positions|, j requires 0 <= j < |positions| => ScoreOf(qa[positions[j]]))
  }

  lemma AllScoredAt(qa: seq<QaRecord>, positions: seq<nat>)
    requires PositionsOf(qa, positions, HAS_SCORE)
    ensures forall j | 0 <= j < |positions| :: positions[j] < |qa| && HasScore(qa[positions[j]])
  {
    assert forall j | 0 <= j < |positions| :: positions[j] in positions;
  }

  lemma {:induction false} ScoredPicks(qa: seq<QaRecord>) returns (positions: seq<nat>)
    ensures PositionsOf(qa, positions, HAS_SCORE)
    ensures forall j | 0 <= j < |positions| :: positions[j] < |qa| && HasScore(qa[positions[j]])
    ensures Scored(qa) == ScoresAt(qa, positions)
  {
    if qa == [] {
      positions := [];
    } else {
      hide HasScore, ScoreOf, PositionsOf;
      var before, last := ButLast(qa), Last(qa);
      assert qa == before + [last];
      var earlier := ScoredPicks(before);
      ScoredAppend(before, [last]);
      ScoredOne(last);
      PositionsSnoc(qa, earlier, HAS_SCORE);
      positions := if HasScore(last) then earlier + [|qa| - 1] else earlier;
      AllScoredAt(qa, positions);
      ScoresAtSnoc(qa, earlier);
    }
  }

  lemma ScoresAtSnoc(qa: seq<QaRecord>, earlier: seq<nat>)
    requires qa != []
    requires forall j | 0 <= j < |earlier| :: earlier[j] < |qa| - 1 && HasScore(ButLast(qa)[earlier[j]])
    ensures forall j | 0 <= j < |earlier| :: HasScore(qa[earlier[j]])
    ensures ScoresAt(qa, earlier) == ScoresAt(ButLast(qa), earlier)
    ensures HasScore(Last(qa)) ==>
              ScoresAt(qa, earlier + [|qa| - 1]) == ScoresAt(ButLast(qa), earlier) + [ScoreOf(Last(qa))]
  {
    hide HasScore, ScoreOf;
    assert forall j | 0 <= j < |earlier| :: ButLast(qa)[earlier[j]] == qa[earlier[j]];
  }

  lemma ScoredOne(r: QaRecord)
    ensures Scored([r]) == if HasScore(r) then [ScoreOf(r)] else []
  {
    assert Scored([r][1..]) == [];
  }

  /** A sum divided by how many there are, without its fraction. */
  predicate IsAverage(v: int, xs: seq<int>) {
    && (Sum(xs) >= 0 ==> v * |xs| <= Sum(xs) < v * |xs| + |xs|)
    && (Sum(xs) < 0 ==> v * |xs| - |xs| < Sum(xs) <= v * |xs|)
  }

  lemma AverageIs(xs: seq<int>)
    requires xs != []
    ensures IsAverage(Average(xs), xs)
  {
  }

  /** The report: all records, the average of the scores they have, and the average of each
      category that has scores. */
  lemma ReportIs(s: State) returns (scored: seq<int>, positions: seq<nat>)
    requires s.node == Finalize
    ensures Step(s, Reports).Some? && Step(s, Reports).value.report.Some?
    ensures Increasing(positions) && |scored| == |positions|
    ensures forall i: nat :: i in positions <==> i < |s.memory.qa| && HasScore(s.memory.qa[i])
    ensures forall j | 0 <= j < |positions| ::
              positions[j] < |s.memory.qa| && HasScore(s.memory.qa[positions[j]])
              && scored[j] == s.memory.qa[positions[j]].fields["score"].n
    ensures var report, scores := Step(s, Reports).value.report.value, s.memory.scores;
            && report.questions == s.memory.qa && report.totalQuestions == |s.memory.qa|
            && (if scored == [] then report.overallScore == 0 else IsAverage(report.overallScore, scored))
            && (forall c :: c in report.categoryScores <==> c in scores && scores[c] != [])
            && Last(Step(s, Reports).value.memory.trace).action == "finalize"
            && (forall c | c in report.categoryScores :: IsAverage(report.categoryScores[c], scores[c]))
  {
    hide Average, IsAverage, Scored;
    scored := Scored(s.memory.qa);
    positions := ScoredPicks(s.memory.qa);
    hide Increasing;
    assert forall j | 0 <= j < |positions| :: positions[j] in positions;
    if scored != [] {
      AverageIs(scored);
    }
    forall c | c in s.memory.scores && s.memory.scores[c] != []
      ensures IsAverage(Average(s.memory.scores[c]), s.memory.scores[c])
    {
      AverageIs(s.memory.scores[c]);
    }
  }

  // ------------------------------------------------------------------- an answer is kept

  /** What an accepted answer adds: a record of the question it answers, not yet scored, and
      the answer at the end of the chat. */
  lemma AnswerKept(s: State, answer: string)
    requires SubmitAnswer(s, answer).Some?
    ensures var next, m := SubmitAnswer(s, answer).value, s.memory;
            var fields := Last(next.memory.qa).fields;
            && next.messages == s.messages + [Human(answer)]
            && next.memory == m.(qa := m.qa + [Last(next.memory.qa)])
            && Last(next.memory.qa).questionIndex == m.turnCount
            && fields.Keys == {"question", "category", "difficulty", "answer", "score", "feedback"}
            && fields["answer"] == Str(answer) && fields["score"] == Null && fields["feedback"] == Null
            && (CurrentQuestion in m.settings ==> fields["question"] == Str(m.settings[CurrentQuestion]))
            && (CurrentQuestion !in m.settings ==> fields["question"] == Str(""))
            && (CurrentCategory in m.settings && m.settings[CurrentCategory] != "" ==>
                  fields["category"] == Str(m.settings[CurrentCategory]))
            && (CurrentCategory !in m.settings || m.settings[CurrentCategory] == "" ==>
                  fields["category"] == Str("\U{901A}\U{7528}"))
            && (Difficulty in m.settings ==> fields["difficulty"] == Str(m.settings[Difficulty]))
            && (Difficulty !in m.settings ==> fields["difficulty"] == Str("mid"))
            && next.node == InitContext && !next.finished && next.maxTurns == s.maxTurns
  {
    assert Last(s.memory.qa + [AnswerRecord(s.memory, answer)]) == AnswerRecord(s.memory, answer);
  }
}
