/** The adaptive interview agent as a transition system
    (`backend/app/graphs/adaptive_interview.py`): the language model and the tools are
    events from outside, and the tools of one round finish in any order. */
module AgentGraph {
  import opened Text
  import opened AgentMemory

  // ------------------------------------------------------------------- messages

  datatype Call = Call(id: string, name: string)

  datatype Message =
    | System(content: string)
    | Human(content: string)
    | Ai(content: string, calls: seq<Call>)
    | Tool(callId: string)

  predicate AsksForTools(m: Message) {
    m.Ai? && m.calls != []
  }

  /** One tool message for each call, in some order. */
  predicate Answers(replies: seq<Message>, calls: seq<Call>) {
    && (forall i | 0 <= i < |replies| :: replies[i].Tool?)
    && multiset(CallIds(calls)) == multiset(ReplyIds(replies))
  }

  function CallIds(calls: seq<Call>): seq<string> {
    seq(|calls|, i requires 0 <= i < |calls| => calls[i].id)
  }

  function ReplyIds(replies: seq<Message>): seq<string>
    requires forall i | 0 <= i < |replies| :: replies[i].Tool?
  {
    seq(|replies|, i requires 0 <= i < |replies| => replies[i].callId)
  }

  /** What a chat model accepts: each assistant message with tool calls is followed at
      once by exactly one tool message per call, and there are no other tool messages. */
  predicate WellFormed(messages: seq<Message>)
    decreases |messages|
  {
    messages == [] ||
    (if AsksForTools(messages[0]) then
       var n := |messages[0].calls|;
       && n < |messages|
       && Answers(messages[1..n + 1], messages[0].calls)
       && WellFormed(messages[n + 1..])
     else !messages[0].Tool? && WellFormed(messages[1..]))
  }

  lemma {:induction false} WellFormedAppend(a: seq<Message>, b: seq<Message>)
    requires WellFormed(a)
    ensures WellFormed(a + b) <==> WellFormed(b)
    decreases |a|
  {
    if a == [] {
      assert a + b == b;
    } else if AsksForTools(a[0]) {
      var n := |a[0].calls|;
      assert (a + b)[1..n + 1] == a[1..n + 1];
      assert (a + b)[n + 1..] == a[n + 1..] + b;
      WellFormedAppend(a[n + 1..], b);
    } else {
      assert (a + b)[1..] == a[1..] + b;
      WellFormedAppend(a[1..], b);
    }
  }

  function WithoutSystem(messages: seq<Message>): seq<Message> {
    if messages == [] then []
    else (if messages[0].System? then [] else [messages[0]]) + WithoutSystem(messages[1..])
  }

  lemma {:induction false} WithoutSystemAppend(a: seq<Message>, b: seq<Message>)
    ensures WithoutSystem(a + b) == WithoutSystem(a) + WithoutSystem(b)
  {
    if a == [] {
      assert a + b == b;
    } else {
      assert (a + b)[1..] == a[1..] + b;
      WithoutSystemAppend(a[1..], b);
    }
  }

  lemma {:induction false} NoSystemKept(messages: seq<Message>)
    requires forall m | m in messages :: !m.System?
    ensures WithoutSystem(messages) == messages
  {
    if messages != [] {
      NoSystemKept(messages[1..]);
    }
  }

  lemma {:induction false} WithoutSystemWellFormed(messages: seq<Message>)
    requires WellFormed(messages)
    ensures WellFormed(WithoutSystem(messages))
    decreases |messages|
  {
    if messages == [] {
    } else if AsksForTools(messages[0]) {
      var n := |messages[0].calls|;
      var block, rest := messages[..n + 1], messages[n + 1..];
      assert messages == block + rest;
      WithoutSystemAppend(block, rest);
      assert forall m | m in block :: !m.System? by {
        forall i | 0 <= i < |block| ensures !block[i].System? {
          if i > 0 { assert block[i] == messages[1..n + 1][i - 1]; }
        }
      }
      NoSystemKept(block);
      WithoutSystemWellFormed(rest);
      var r := WithoutSystem(rest);
      assert (block + r)[1..n + 1] == messages[1..n + 1] && (block + r)[n + 1..] == r;
    } else {
      WithoutSystemWellFormed(messages[1..]);
      var r := WithoutSystem(messages[1..]);
      assert ([messages[0]] + r)[1..] == r;
      assert WithoutSystem(messages) == if messages[0].System? then r else [messages[0]] + r;
    }
  }

  /** `_init_context`: the system message is renewed in front of all the others. */
  function InitMessages(messages: seq<Message>, prompt: string): seq<Message> {
    [System(prompt)] + WithoutSystem(messages)
  }

  lemma InitMessagesWellFormed(messages: seq<Message>, prompt: string)
    ensures WellFormed(InitMessages(messages, prompt)) <==> WellFormed(WithoutSystem(messages))
    ensures WellFormed(messages) ==> WellFormed(InitMessages(messages, prompt))
  {
    assert InitMessages(messages, prompt)[1..] == WithoutSystem(messages);
    if WellFormed(messages) {
      WithoutSystemWellFormed(messages);
    }
  }

  // ---------------------------------------------------------------- accumulators

  datatype Update<T> = Clear | Items(items: seq<T>) | One(item: T)

  /** The reducer `_append_or_clear`. */
  function AppendOrClear<T>(current: seq<T>, update: Update<T>): seq<T> {
    match update
    case Clear => []
    case Items(items) => current + items
    case One(item) => current + [item]
  }

  // ----------------------------------------------------------------------- tools

  /** What running a tool comes to: it raises, its result cannot be parsed, or it is one
      of the results a side effect is derived from. Which record and category an
      evaluation is attributed to is left open. */
  datatype ToolOutcome =
    | Raised
    | Opaque
    | Question(question: string, category: string)
    | Evaluation(questionIndex: int, scoredCategory: string, score: int, feedback: string)
    | Strategy(difficulty: string)

  predicate Evaluates(call: Call, outcome: ToolOutcome) {
    call.name == "evaluate_answer" && outcome.Evaluation?
  }

  /** `_apply_tool_side_effects`. */
  function SideEffectOf(call: Call, outcome: ToolOutcome): SideEffect {
    if call.name == "generate_question" && outcome.Question? then
      NO_EFFECT.(others := map[CurrentQuestion := outcome.question, CurrentCategory := outcome.category])
    else if Evaluates(call, outcome) then
      SideEffect(
        Some(QaRecord(outcome.questionIndex, map["score" := Num(outcome.score), "feedback" := Str(outcome.feedback)])),
        [(outcome.scoredCategory, [outcome.score])], 1, map[])
    else if call.name == "adjust_strategy" && outcome.Strategy? && outcome.difficulty != "" then
      NO_EFFECT.(others := map[Difficulty := outcome.difficulty])
    else NO_EFFECT
  }

  function EffectOf(index: nat, call: Call, outcome: ToolOutcome): ToolEffect {
    ToolEffect(index, SideEffectOf(call, outcome), TraceEntry(0, call.name))
  }

  // -------------------------------------------------------------------- the graph

  const MAX_AGENT_STEPS := 30

  datatype Node = InitContext | AgentLoop | ExecuteTools | MergeResults | Finalize | End

  datatype Report =
    Report(totalQuestions: nat, overallScore: int, categoryScores: map<string, int>, questions: seq<QaRecord>)

  datatype State = State(
    node: Node,
    messages: seq<Message>,
    steps: nat,
    finished: bool,
    toolMessages: seq<Message>,
    toolEffects: seq<ToolEffect>,
    arrived: seq<nat>,  // the calls of this round that have completed, in completion order
    memory: Memory,
    maxTurns: int,
    report: Option<Report>)

  datatype Event =
    | Initialise(prompt: string)
    | Stops                                       // a limit ends the turn, no model call
    | Replies(content: string, calls: seq<Call>)  // the model answers
    | Fails                                       // the model call times out or raises
    | Completes(index: nat, outcome: ToolOutcome)
    | Merges
    | Reports

  /** `should_end_interview`. */
  predicate ShouldEnd(turnCount: int, maxTurns: int, scores: map<string, seq<int>>) {
    turnCount >= maxTurns || (turnCount >= maxTurns - 1 && forall c | c in scores :: |scores[c]| >= 2)
  }

  predicate LimitReached(s: State) {
    s.steps >= MAX_AGENT_STEPS || ShouldEnd(s.memory.turnCount, s.maxTurns, s.memory.scores)
  }

  const END_SIGNAL := "END_INTERVIEW"

  predicate Signals(content: string) {
    IndexOf(content, END_SIGNAL) != -1
  }

  /** `_agent_loop` when the model has replied. */
  function AfterReply(s: State, content: string, calls: seq<Call>): State {
    var s' := s.(messages := s.messages + [Ai(content, calls)],
                 memory := s.memory.(trace := s.memory.trace + [TraceEntry(s.steps + 1, "agent_loop")]));
    if Signals(content) || calls == [] then s'.(finished := true) else s'.(steps := s.steps + 1)
  }

  /** `_route_agent_output`. */
  function Route(s: State): Node {
    if s.finished then Finalize
    else if s.messages != [] && AsksForTools(Last(s.messages)) then ExecuteTools
    else Finalize
  }

  function Calls(s: State): seq<Call> {
    if s.messages != [] && AsksForTools(Last(s.messages)) then Last(s.messages).calls else []
  }

  function Step(s: State, e: Event): Option<State> {
    match e
    case Initialise(prompt) =>
      if s.node != InitContext then None
      else Some(s.(node := AgentLoop, messages := InitMessages(s.messages, prompt), steps := 0, finished := false,
                   memory := s.memory.(trace := [TraceEntry(0, "init_context")])))
    case Stops =>
      if s.node != AgentLoop || !LimitReached(s) then None
      else Some(s.(node := Finalize, finished := true))
    case Fails =>
      if s.node != AgentLoop || LimitReached(s) then None
      else Some(s.(node := Finalize, finished := true))
    case Replies(content, calls) =>
      if s.node != AgentLoop || LimitReached(s) then None
      else
        var s' := AfterReply(s, content, calls);
        Some(s'.(node := Route(s'), arrived := []))
    case Completes(index, outcome) =>
      if s.node != ExecuteTools || index >= |Calls(s)| || index in s.arrived then None
      else
        var call := Calls(s)[index];
        Some(s.(node := if |s.arrived| + 1 == |Calls(s)| then MergeResults else ExecuteTools,
                arrived := s.arrived + [index],
                toolMessages := AppendOrClear(s.toolMessages, Items([Tool(call.id)])),
                toolEffects := AppendOrClear(s.toolEffects, Items([EffectOf(index, call, outcome)]))))
    case Merges =>
      if s.node != MergeResults then None
      else Some(s.(node := AgentLoop,
                   messages := s.messages + s.toolMessages,
                   toolMessages := AppendOrClear(s.toolMessages, Clear),
                   toolEffects := AppendOrClear(s.toolEffects, Clear),
                   memory := MergeEffects(s.memory, s.toolEffects)))
    case Reports =>
      if s.node != Finalize then None
      else Some(Finalized(s))
  }

  function Run(s: State, events: seq<Event>): Option<State> {
    if events == [] then Some(s)
    else
      match Run(s, ButLast(events))
      case Some(s') => Step(s', Last(events))
      case None => None
  }

  // ------------------------------------------------------------------- the report

  function Scored(qa: seq<QaRecord>): seq<int> {
    if qa == [] then []
    else
      (if "score" in qa[0].fields && qa[0].fields["score"].Num? then [qa[0].fields["score"].n] else [])
      + Scored(qa[1..])
  }

  function Sum(xs: seq<int>): int {
    if xs == [] then 0 else xs[0] + Sum(xs[1..])
  }

  /** `int(a / b)`, which drops the fraction. */
  function TruncatedQuotient(a: int, b: nat): (q: int)
    requires b > 0
    ensures a >= 0 ==> q * b <= a < q * b + b
    ensures a < 0 ==> q * b - b < a <= q * b
  {
    if a >= 0 then a / b else -((-a) / b)
  }

  function Average(xs: seq<int>): int
    requires xs != []
  {
    TruncatedQuotient(Sum(xs), |xs|)
  }

  function MaxStep(trace: seq<TraceEntry>): int {
    if trace == [] then 0
    else if |trace| == 1 then trace[0].step
    else
      var rest := MaxStep(trace[1..]);
      if trace[0].step > rest then trace[0].step else rest
  }

  function Finalized(s: State): State {
    var qa, scores := s.memory.qa, s.memory.scores;
    var scored := Scored(qa);
    var report := Report(
      |qa|,
      if scored == [] then 0 else Average(scored),
      map c | c in scores && scores[c] != [] :: Average(scores[c]),
      qa);
    s.(node := End, finished := true, report := Some(report),
       memory := s.memory.(trace := s.memory.trace + [TraceEntry(MaxStep(s.memory.trace) + 1, "finalize")]))
  }

  predicate AllBetween(xs: seq<int>, low: int, high: int) {
    forall i | 0 <= i < |xs| :: low <= xs[i] <= high
  }

  lemma {:induction false} SumBetween(xs: seq<int>, low: int, high: int)
    requires AllBetween(xs, low, high)
    ensures low * |xs| <= Sum(xs) <= high * |xs|
  {
    if xs != [] {
      SumBetween(xs[1..], low, high);
      assert low * |xs| == low + low * |xs[1..]|;
      assert high * |xs| == high + high * |xs[1..]|;
    }
  }

  lemma Scale(x: int, y: int, n: nat)
    requires x <= y
    ensures x * n <= y * n
  {
  }

  lemma Quotient(a: nat, n: nat, low: int, high: int)
    requires n > 0 && low * n <= a <= high * n
    ensures low <= a / n <= high
  {
    var q := a / n;
    assert q * n <= a < q * n + n;
    if q > high { Scale(high + 1, q, n); }
    if q < low { Scale(q + 1, low, n); }
  }

  lemma QuotientBetween(a: int, n: nat, low: int, high: int)
    requires n > 0 && low * n <= a <= high * n
    ensures low <= TruncatedQuotient(a, n) <= high
  {
    if a >= 0 {
      Quotient(a, n, low, high);
    } else {
      Negate(low, n);
      Negate(high, n);
      Quotient(-a, n, -high, -low);
    }
  }

  lemma Negate(x: int, n: nat)
    ensures (-x) * n == -(x * n)
  {
  }

  /** A reported average lies between the scores it averages. */
  lemma AverageBetween(xs: seq<int>, low: int, high: int)
    requires xs != [] && AllBetween(xs, low, high)
    ensures low <= Average(xs) <= high
  {
    SumBetween(xs, low, high);
    QuotientBetween(Sum(xs), |xs|, low, high);
  }

  lemma {:induction false} MaxStepLargest(trace: seq<TraceEntry>)
    ensures forall e | e in trace :: e.step <= MaxStep(trace)
    ensures trace != [] ==> exists e :: e in trace && e.step == MaxStep(trace)
  {
    if trace != [] {
      assert trace[0] in trace;
      MaxStepLargest(trace[1..]);
      assert trace == [trace[0]] + trace[1..];
    }
  }

  /** The entry that finalising adds to the trace has the largest step of all, and it is
      one more than the largest before. */
  lemma FinalStepLargest(s: State)
    requires s.node == Finalize
    ensures var after := Step(s, Reports).value.memory.trace;
            && after[..|after| - 1] == s.memory.trace
            && (forall e | e in s.memory.trace :: e.step < Last(after).step)
            && (s.memory.trace != [] ==> exists e :: e in s.memory.trace && e.step + 1 == Last(after).step)
  {
    MaxStepLargest(s.memory.trace);
  }
}
