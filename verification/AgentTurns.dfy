/** From one turn of the adaptive interview to the next: what the service does with an
    answer (`backend/app/application/agent/adaptive_service.py`). */
module AgentTurns {
  import opened Text
  import opened AgentMemory
  import opened AgentGraph
  import opened AgentRuns

  const DEFAULT_CATEGORY := "\U{901A}\U{7528}"
  const DEFAULT_DIFFICULTY := "mid"

  function SettingOr(m: Memory, key: Setting, default: string): string {
    match SettingOf(m.settings, key)
    case Some(value) => value
    case None => default
  }

  /** The record an answer is kept in until it is evaluated. */
  function AnswerRecord(m: Memory, answer: string): QaRecord {
    var category := SettingOr(m, CurrentCategory, "");
    QaRecord(m.turnCount, map[
      "question" := Str(SettingOr(m, CurrentQuestion, "")),
      "category" := Str(if category == "" then DEFAULT_CATEGORY else category),
      "difficulty" := Str(SettingOr(m, Difficulty, DEFAULT_DIFFICULTY)),
      "answer" := Str(answer),
      "score" := Null,
      "feedback" := Null])
  }

  /** `submit_answer` up to the call of the graph: refused once the interview is finished;
      otherwise the answer joins the history and the chat, and a turn starts. Of a round
      that is still open nothing has been written back. */
  function SubmitAnswer(s: State, answer: string): Option<State> {
    if s.finished then None
    else Some(s.(node := InitContext,
                 messages := s.messages + [Human(answer)],
                 toolMessages := [], toolEffects := [], arrived := [],
                 memory := s.memory.(qa := s.memory.qa + [AnswerRecord(s.memory, answer)])))
  }

  // ---------------------------------------------------------- the chat of the next turn

  /** A chat that ends in a request for tools is not well-formed. */
  lemma {:induction false} UnansweredNotWellFormed(messages: seq<Message>)
    requires messages != [] && AsksForTools(Last(messages))
    ensures !WellFormed(messages)
    decreases |messages|
  {
    if AsksForTools(messages[0]) {
      var n := |messages[0].calls|;
      if n < |messages| {
        if n + 1 < |messages| {
          UnansweredNotWellFormed(messages[n + 1..]);
        } else {
          assert messages[1..n + 1][n - 1] == Last(messages);
        }
      }
    } else if |messages| > 1 {
      UnansweredNotWellFormed(messages[1..]);
    }
  }

  lemma AskThenHuman(ask: Message, human: Message, rest: seq<Message>)
    requires AsksForTools(ask) && human.Human?
    ensures !WellFormed([ask, human] + rest)
  {
    var messages, n := [ask, human] + rest, |ask.calls|;
    if n < |messages| {
      assert messages[1..n + 1][0] == human;
      assert !Answers(messages[1..n + 1], ask.calls);
    }
  }

  /** Wherever a request for tools is followed by a human message, the chat is malformed. */
  lemma {:induction false} AskThenHumanInside(x: seq<Message>, ask: Message, human: Message, y: seq<Message>)
    requires AsksForTools(ask) && human.Human?
    ensures !WellFormed(x + [ask, human] + y)
    decreases |x|
  {
    var messages := x + [ask, human] + y;
    if x == [] {
      assert messages == [ask, human] + y;
      AskThenHuman(ask, human, y);
    } else if AsksForTools(x[0]) {
      var n := |x[0].calls|;
      if n + 1 <= |x| {
        assert messages[n + 1..] == x[n + 1..] + [ask, human] + y;
        AskThenHumanInside(x[n + 1..], ask, human, y);
      } else if n < |messages| {
        assert messages[1..n + 1][|x| - 1] == ask;
        assert !Answers(messages[1..n + 1], x[0].calls);
      }
    } else {
      assert messages[1..] == x[1..] + [ask, human] + y;
      AskThenHumanInside(x[1..], ask, human, y);
    }
  }

  lemma AnswerBehindRequest(messages: seq<Message>, answer: string)
    requires messages != [] && AsksForTools(Last(messages))
    ensures !WellFormed(WithoutSystem(messages + [Human(answer)]))
  {
    hide WellFormed;
    var before, tail := ButLast(messages), [Last(messages), Human(answer)];
    assert messages + [Human(answer)] == before + tail;
    WithoutSystemAppend(before, tail);
    NoSystemKept(tail);
    AskThenHumanInside(WithoutSystem(before), Last(messages), Human(answer), []);
    assert WithoutSystem(before) + tail + [] == WithoutSystem(before) + tail;
  }

  lemma AnswerBehindChat(messages: seq<Message>, answer: string)
    requires WellFormed(WithoutSystem(messages))
    ensures WellFormed(WithoutSystem(messages + [Human(answer)]))
    ensures messages != [] ==> !AsksForTools(Last(messages))
  {
    hide WellFormed;
    WithoutSystemAppend(messages, [Human(answer)]);
    NoSystemKept([Human(answer)]);
    PlainReply(WithoutSystem(messages), Human(answer));
    if messages != [] && AsksForTools(Last(messages)) {
      assert messages == ButLast(messages) + [Last(messages)];
      WithoutSystemAppend(ButLast(messages), [Last(messages)]);
      NoSystemKept([Last(messages)]);
      UnansweredNotWellFormed(WithoutSystem(messages));
    }
  }

  /** The chat an accepted answer starts a turn from is well-formed exactly when no request
      for tools is open, that is, outside a round. */
  lemma NextChatIff(s: State, answer: string)
    requires Inv(s) && SubmitAnswer(s, answer).Some?
    ensures var next := SubmitAnswer(s, answer).value;
            && TurnStart(next)
            && (WellFormed(WithoutSystem(next.messages)) <==> Calls(s) == [])
            && (WellFormed(WithoutSystem(next.messages)) <==> s.node == InitContext || s.node == AgentLoop)
  {
    hide WellFormed, WithoutSystem;
    if s.node == ExecuteTools || s.node == MergeResults {
      AnswerBehindRequest(s.messages, answer);
    } else {
      if s.node == AgentLoop {
        WithoutSystemWellFormed(s.messages);
      }
      AnswerBehindChat(s.messages, answer);
    }
  }

  /** So the model sees well-formed chats in all runs of the next turn exactly when the
      answer did not come in the middle of a round. */
  lemma NextTurnSeesWellFormedChatIff(s: State, answer: string)
    requires Inv(s) && SubmitAnswer(s, answer).Some?
    ensures var next := SubmitAnswer(s, answer).value;
            ((forall events | Run(next, events).Some? && Run(next, events).value.node == AgentLoop ::
                WellFormed(Run(next, events).value.messages))
             <==> Calls(s) == [])
  {
    NextChatIff(s, answer);
    ModelSeesWellFormedChatIff(SubmitAnswer(s, answer).value);
  }

  /** A turn comes to rest at its end or in a round that waits for an approval. */
  predicate AtRest(s: State) {
    s.node == End || s.node == ExecuteTools
  }

  /** After any run of any turn that has come to rest, whatever chat it started from, an
      answer is refused at the end of the turn; in an open round it is accepted, and then the
      first chat the model is to see is malformed. */
  lemma AnswerAtRest(start: State, events: seq<Event>, answer: string, prompt: string)
    requires TurnStart(start)
    requires Run(start, events).Some? && AtRest(Run(start, events).value)
    ensures var s := Run(start, events).value;
            && (SubmitAnswer(s, answer).None? <==> s.node == End)
            && (SubmitAnswer(s, answer).Some? ==>
                  var first := Step(SubmitAnswer(s, answer).value, Initialise(prompt));
                  first.Some? && first.value.node == AgentLoop && !WellFormed(first.value.messages))
  {
    hide WellFormed, WithoutSystem, InitMessages;
    RunKeepsShape(start, events);
    var s := Run(start, events).value;
    if s.node == ExecuteTools {
      AnswerBehindRequest(s.messages, answer);
      InitMessagesWellFormed(SubmitAnswer(s, answer).value.messages, prompt);
    }
  }

  /** Every turn that has not used up its limits has such a run: the model asks for one tool. */
  lemma OpenRoundReachable(start: State, prompt: string, call: Call, answer: string)
    returns (events: seq<Event>)
    requires TurnStart(start)
    requires !ShouldEnd(start.memory.turnCount, start.maxTurns, start.memory.scores)
    ensures Run(start, events).Some? && AtRest(Run(start, events).value)
    ensures RoundStart(Run(start, events).value) && Calls(Run(start, events).value) == [call]
    ensures SubmitAnswer(Run(start, events).value, answer).Some?
    ensures var m := Run(start, events).value.memory;
            m.qa == start.memory.qa && m.turnCount == start.memory.turnCount
  {
    hide WellFormed, WithoutSystem, ShouldEnd, InitMessages;
    var first, second := Initialise(prompt), Replies("", [call]);
    events := [first, second];
    assert ButLast(events) == [first] && ButLast([first]) == [] && Last([first]) == first;
    assert Run(start, []) == Some(start);
    var s := Step(start, first).value;
    assert Run(start, [first]) == Some(s);
    assert Last(s.messages + [Ai("", [call])]) == Ai("", [call]);
  }

  /** A request for tools that a human message follows. */
  predicate AbandonedAt(messages: seq<Message>, n: int) {
    0 <= n <= n + 2 <= |messages| && AsksForTools(messages[n]) && messages[n + 1].Human?
  }

  ghost predicate Abandoned(messages: seq<Message>) {
    exists n :: AbandonedAt(messages, n)
  }

  lemma AbandonedNotWellFormed(messages: seq<Message>)
    requires Abandoned(messages)
    ensures !WellFormed(messages)
  {
    var n :| AbandonedAt(messages, n);
    AskThenHumanInside(messages[..n], messages[n], messages[n + 1], messages[n + 2..]);
    assert messages == messages[..n] + [messages[n], messages[n + 1]] + messages[n + 2..];
  }

  lemma AbandonedAppend(messages: seq<Message>, more: seq<Message>)
    requires Abandoned(messages)
    ensures Abandoned(messages + more)
  {
    var n :| AbandonedAt(messages, n);
    assert AbandonedAt(messages + more, n);
  }

  lemma AbandonedRenewed(messages: seq<Message>, prompt: string)
    requires Abandoned(messages)
    ensures Abandoned(InitMessages(messages, prompt))
  {
    hide WithoutSystem;
    var n :| AbandonedAt(messages, n);
    var before, pair, rest := messages[..n], messages[n..n + 2], messages[n + 2..];
    assert messages == before + (pair + rest);
    WithoutSystemAppend(before, pair + rest);
    WithoutSystemAppend(pair, rest);
    NoSystemKept(pair);
    assert AbandonedAt(InitMessages(messages, prompt), 1 + |WithoutSystem(before)|);
  }

  lemma StepKeepsAbandoned(s: State, e: Event)
    requires Abandoned(s.messages) && Step(s, e).Some?
    ensures Abandoned(Step(s, e).value.messages)
  {
    hide Abandoned, InitMessages, ShouldEnd, Signals, MergeEffects, EffectOf;
    if e.Initialise? {
      AbandonedRenewed(s.messages, e.prompt);
    } else if e.Replies? {
      AbandonedAppend(s.messages, [Ai(e.content, e.calls)]);
    } else if e.Merges? {
      AbandonedAppend(s.messages, s.toolMessages);
    }
  }

  lemma {:induction false} RunKeepsAbandoned(start: State, events: seq<Event>)
    requires Abandoned(start.messages) && Run(start, events).Some?
    ensures Abandoned(Run(start, events).value.messages)
  {
    if events != [] {
      RunKeepsAbandoned(start, ButLast(events));
      StepKeepsAbandoned(Run(start, ButLast(events)).value, Last(events));
    }
  }

  /** An answer and what then happens, for each turn. */
  datatype Turn = Turn(answer: string, events: seq<Event>)

  /** Turn after turn, as far as answers are accepted and events are possible. */
  function Session(s: State, turns: seq<Turn>): Option<State> {
    if turns == [] then Some(s)
    else
      match Session(s, ButLast(turns))
      case None => None
      case Some(s') =>
        match SubmitAnswer(s', Last(turns).answer)
        case None => None
        case Some(next) => Run(next, Last(turns).events)
  }

  /** The damage lasts: once an answer has come behind an open request for tools, no chat of
      that turn or of any later turn is well-formed. */
  lemma AbandonedForGood(s: State, turns: seq<Turn>)
    requires Calls(s) != [] && turns != [] && Session(s, turns).Some?
    ensures !WellFormed(Session(s, turns).value.messages)
  {
    StaysAbandoned(s, turns);
    AbandonedNotWellFormed(Session(s, turns).value.messages);
  }

  lemma {:induction false} StaysAbandoned(s: State, turns: seq<Turn>)
    requires Calls(s) != [] && turns != [] && Session(s, turns).Some?
    ensures Abandoned(Session(s, turns).value.messages)
  {
    hide Abandoned, Run;
    var before, answer := Session(s, ButLast(turns)).value, Last(turns).answer;
    var next := SubmitAnswer(before, answer).value;
    if |turns| == 1 {
      assert ButLast(turns) == [] && before == s;
      AnswerAbandons(s, answer);
    } else {
      StaysAbandoned(s, ButLast(turns));
      AbandonedAppend(before.messages, [Human(answer)]);
    }
    RunKeepsAbandoned(next, Last(turns).events);
  }

  lemma AnswerAbandons(s: State, answer: string)
    requires Calls(s) != [] && SubmitAnswer(s, answer).Some?
    ensures Abandoned(SubmitAnswer(s, answer).value.messages)
  {
    assert AbandonedAt(SubmitAnswer(s, answer).value.messages, |s.messages| - 1);
  }

  /** A finished turn leaves a well-formed chat unless its last reply carried both the end
      signal and tool calls, which are never answered; no answer continues it. */
  lemma ChatAfterTurnIff(s: State)
    requires Inv(s) && s.node == End
    ensures WellFormed(s.messages) <==> Calls(s) == []
    ensures Calls(s) != [] ==> Signals(Last(s.messages).content)
    ensures forall answer :: SubmitAnswer(s, answer).None?
  {
    if Calls(s) != [] {
      UnansweredNotWellFormed(s.messages);
    }
  }

  // --------------------------------------------------------- the history of the next turn

  lemma IndexOccurs(qa: seq<QaRecord>, index: int)
    ensures index in Indices(qa) <==> exists i :: 0 <= i < |qa| && qa[i].questionIndex == index
  {
    if index in Indices(qa) {
      var i :| 0 <= i < |Indices(qa)| && Indices(qa)[i] == index;
      assert qa[i].questionIndex == index;
    }
    if exists i :: 0 <= i < |qa| && qa[i].questionIndex == index {
      var i :| 0 <= i < |qa| && qa[i].questionIndex == index;
      assert Indices(qa)[i] == index;
    }
  }

  /** Keeping an answer leaves the indices of the history unique exactly when they were and
      none is the turn count. */
  lemma AnswerKeepsUniqueIff(s: State, answer: string)
    requires SubmitAnswer(s, answer).Some?
    ensures UniqueIndices(SubmitAnswer(s, answer).value.memory.qa)
       <==> UniqueIndices(s.memory.qa) && s.memory.turnCount !in Indices(s.memory.qa)
  {
    var qa, qa' := s.memory.qa, SubmitAnswer(s, answer).value.memory.qa;
    IndexOccurs(qa, s.memory.turnCount);
    assert forall i | 0 <= i < |qa| :: qa'[i] == qa[i];
    assert qa'[|qa|].questionIndex == s.memory.turnCount;
  }

  predicate IndicesBelow(qa: seq<QaRecord>, n: int) {
    forall i | 0 <= i < |qa| :: qa[i].questionIndex < n
  }

  /** Answer after answer, if a turn adds no record of its own: the next answer gets an
      index of its own exactly when the turn in between evaluated something, and then all
      indices are again below the turn count. */
  lemma NextAnswerUniqueIff(s: State, answer: string, events: seq<Event>, answer': string)
    requires UniqueIndices(s.memory.qa) && IndicesBelow(s.memory.qa, s.memory.turnCount)
    requires SubmitAnswer(s, answer).Some?
    requires var next := SubmitAnswer(s, answer).value;
             && Run(next, events).Some?
             && SubmitAnswer(Run(next, events).value, answer').Some?
             && Indices(Run(next, events).value.memory.qa) == Indices(next.memory.qa)
    ensures var s' := Run(SubmitAnswer(s, answer).value, events).value;
            && (UniqueIndices(SubmitAnswer(s', answer').value.memory.qa) <==> s'.memory.turnCount > s.memory.turnCount)
            && (s'.memory.turnCount > s.memory.turnCount ==>
                  UniqueIndices(s'.memory.qa) && IndicesBelow(s'.memory.qa, s'.memory.turnCount))
  {
    hide Run, FromTools, Balanced;
    var next := SubmitAnswer(s, answer).value;
    var s' := Run(next, events).value;
    RunAccounting(next, events) by { NothingFromTools(); }
    RunKeepsHistory(next, events);
    IndexOccurs(s.memory.qa, s.memory.turnCount);
    AnswerKeepsUniqueIff(s, answer);
    AnswerKeepsUniqueIff(s', answer');
    assert Indices(next.memory.qa)[|s.memory.qa|] == s.memory.turnCount;
    forall i | 0 <= i < |s'.memory.qa| ensures s'.memory.qa[i].questionIndex <= s.memory.turnCount {
      assert Indices(s'.memory.qa)[i] == Indices(next.memory.qa)[i] == next.memory.qa[i].questionIndex;
    }
    IndexOccurs(s'.memory.qa, s'.memory.turnCount);
  }

  /** And that fails in every interview within its limits: if the model only asks for a tool
      and the next answer comes while that round is open, both answers have one index. */
  lemma RepeatedIndexReachable(s: State, answer: string, prompt: string, call: Call, answer': string)
    returns (events: seq<Event>)
    requires SubmitAnswer(s, answer).Some?
    requires !ShouldEnd(s.memory.turnCount, s.maxTurns, s.memory.scores)
    ensures var next := SubmitAnswer(s, answer).value;
            && Run(next, events).Some? && AtRest(Run(next, events).value)
            && SubmitAnswer(Run(next, events).value, answer').Some?
            && !UniqueIndices(SubmitAnswer(Run(next, events).value, answer').value.memory.qa)
  {
    hide Run, ShouldEnd;
    var next := SubmitAnswer(s, answer).value;
    events := OpenRoundReachable(next, prompt, call, answer');
    var s' := Run(next, events).value;
    AnswerKeepsUniqueIff(s', answer');
    IndexOccurs(next.memory.qa, s.memory.turnCount);
    assert next.memory.qa[|s.memory.qa|].questionIndex == s.memory.turnCount;
  }

  lemma NothingFromTools()
    ensures FromTools([])
  {
  }
}
