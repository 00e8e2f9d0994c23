/** What holds in every state of every run of the agent graph. */
module AgentRuns {
  import opened Text
  import opened AgentMemory
  import opened AgentGraph

  // ------------------------------------------------------- orders of completion

  predicate DistinctBelow(order: seq<nat>, n: nat) {
    && (forall i | 0 <= i < |order| :: order[i] < n)
    && (forall i, j | 0 <= i < j < |order| :: order[i] != order[j])
  }

  lemma WithoutLargest(order: seq<nat>, n: nat, p: nat)
    requires n > 0 && DistinctBelow(order, n) && p < |order| && order[p] == n - 1
    ensures DistinctBelow(Without(order, p), n - 1)
  {
  }

  lemma {:induction false} AtMost(order: seq<nat>, n: nat)
    requires DistinctBelow(order, n)
    ensures |order| <= n
  {
    if order == [] {
    } else if exists p :: 0 <= p < |order| && order[p] == n - 1 {
      assert order[0] < n;
      var p :| 0 <= p < |order| && order[p] == n - 1;
      WithoutLargest(order, n, p);
      AtMost(Without(order, p), n - 1);
    } else {
      assert order[0] < n;
      AtMost(order, n - 1);
    }
  }

  lemma PickWithout<T>(xs: seq<T>, order: seq<nat>, p: nat)
    requires DistinctBelow(order, |xs|) && p < |order| && order[p] == |xs| - 1
    ensures DistinctBelow(Without(order, p), |xs| - 1)
    ensures multiset(Pick(xs, order)) == multiset(Pick(ButLast(xs), Without(order, p))) + multiset{Last(xs)}
  {
    WithoutLargest(order, |xs|, p);
    MultisetWithout(Pick(xs, order), p);
    assert Pick(ButLast(xs), Without(order, p)) == Without(Pick(xs, order), p);
  }

  lemma LargestPicked(order: seq<nat>, n: nat) returns (p: nat)
    requires DistinctBelow(order, n) && |order| == n && n > 0
    ensures p < |order| && order[p] == n - 1
  {
    if !exists p :: 0 <= p < |order| && order[p] == n - 1 {
      AtMost(order, n - 1);
      assert false;
    }
    p :| 0 <= p < |order| && order[p] == n - 1;
  }

  /** Completing every call once, in any order, covers the calls exactly. */
  lemma {:induction false} PickAll<T>(xs: seq<T>, order: seq<nat>)
    requires DistinctBelow(order, |xs|) && |order| == |xs|
    ensures multiset(Pick(xs, order)) == multiset(xs)
  {
    if xs == [] {
      assert Pick(xs, order) == [];
    } else {
      var p := LargestPicked(order, |xs|);
      PickWithout(xs, order, p);
      PickAll(ButLast(xs), Without(order, p));
      assert xs == ButLast(xs) + [Last(xs)];
    }
  }

  // ------------------------------------------------------------------ the invariant

  predicate Idle(s: State) {
    s.toolMessages == [] && s.toolEffects == []
  }

  /** What the accumulators hold in the middle of a round. */
  predicate Accumulated(s: State) {
    && DistinctBelow(s.arrived, |Calls(s)|)
    && |s.toolMessages| == |s.toolEffects| == |s.arrived|
    && (forall k | 0 <= k < |s.arrived| ::
          && s.toolMessages[k] == Tool(Calls(s)[s.arrived[k]].id)
          && s.toolEffects[k].index == s.arrived[k])
    && (forall e | e in s.toolEffects :: Accounted(e))
  }

  /** A round in progress: a request for tools, and what its tools have added so far. */
  predicate Requesting(s: State) {
    s.messages != [] && AsksForTools(Last(s.messages)) && Accumulated(s)
  }

  predicate EndedWithCalls(s: State) {
    && s.messages != [] && AsksForTools(Last(s.messages)) && WellFormed(ButLast(s.messages))
    && Signals(Last(s.messages).content)
  }

  /** What holds at each node whatever chat the turn started from. */
  predicate Shape(s: State) {
    match s.node
    case InitContext => Idle(s)
    case AgentLoop => Idle(s) && !s.finished && s.steps <= MAX_AGENT_STEPS
    case ExecuteTools => !s.finished && s.steps <= MAX_AGENT_STEPS && Requesting(s) && |s.arrived| < |Calls(s)|
    case MergeResults => !s.finished && s.steps <= MAX_AGENT_STEPS && Requesting(s) && |s.arrived| == |Calls(s)|
    case Finalize => Idle(s) && s.finished
    case End => Idle(s) && s.finished && s.report.Some?
  }

  /** What the chat is at each node of a turn that started from a well-formed one. */
  predicate ChatInOrder(s: State) {
    match s.node
    case InitContext => WellFormed(WithoutSystem(s.messages))
    case AgentLoop => WellFormed(s.messages)
    case ExecuteTools | MergeResults => s.messages != [] && WellFormed(ButLast(s.messages))
    case Finalize | End => WellFormed(s.messages) || EndedWithCalls(s)
  }

  predicate Inv(s: State) {
    Shape(s) && ChatInOrder(s)
  }

  lemma ReplyKeepsShape(s: State, content: string, calls: seq<Call>)
    requires Shape(s) && Step(s, Replies(content, calls)).Some?
    ensures Shape(Step(s, Replies(content, calls)).value)
  {
    hide Signals, LimitReached;
    var s' := Step(s, Replies(content, calls)).value;
    assert Last(s'.messages) == Ai(content, calls);
    assert s.steps < MAX_AGENT_STEPS by { ReplyBelowLimit(s, content, calls); }
  }

  lemma ReplyKeepsChat(s: State, content: string, calls: seq<Call>)
    requires Inv(s) && Step(s, Replies(content, calls)).Some?
    ensures ChatInOrder(Step(s, Replies(content, calls)).value)
  {
    hide WellFormed, Signals, LimitReached, WithoutSystem;
    var s' := Step(s, Replies(content, calls)).value;
    assert ButLast(s'.messages) == s.messages && Last(s'.messages) == Ai(content, calls);
    if calls == [] {
      PlainReply(s.messages, Ai(content, calls));
    }
  }

  lemma ReplyBelowLimit(s: State, content: string, calls: seq<Call>)
    requires Step(s, Replies(content, calls)).Some?
    ensures s.steps < MAX_AGENT_STEPS
  {
  }

  lemma PlainReply(messages: seq<Message>, m: Message)
    requires WellFormed(messages) && !m.Tool? && !AsksForTools(m)
    ensures WellFormed(messages + [m])
  {
    WellFormedAppend(messages, [m]);
    assert [m][1..] == [];
  }

  lemma EffectAccounted(index: nat, call: Call, outcome: ToolOutcome)
    ensures Accounted(EffectOf(index, call, outcome))
  {
    if Evaluates(call, outcome) {
      assert [(outcome.scoredCategory, [outcome.score])][1..] == [];
    }
  }

  lemma CompletionKeepsShape(s: State, index: nat, outcome: ToolOutcome)
    requires Shape(s) && Step(s, Completes(index, outcome)).Some?
    ensures Shape(Step(s, Completes(index, outcome)).value)
  {
    hide Signals, EffectOf, Accounted;
    var call, s' := Calls(s)[index], Step(s, Completes(index, outcome)).value;
    EffectAccounted(index, call, outcome);
    assert EffectOf(index, call, outcome).index == index by { EffectIndex(index, call, outcome); }
    assert s'.toolEffects == s.toolEffects + [EffectOf(index, call, outcome)];
    AtMost(s'.arrived, |Calls(s')|);
  }

  lemma EffectIndex(index: nat, call: Call, outcome: ToolOutcome)
    ensures EffectOf(index, call, outcome).index == index
  {
  }

  /** The tool messages of a complete round answer its calls. */
  lemma RoundAnswered(s: State)
    requires Requesting(s) && |s.arrived| == |Calls(s)|
    ensures Answers(s.toolMessages, Calls(s))
    ensures WellFormed(ButLast(s.messages)) ==> WellFormed(s.messages + s.toolMessages)
  {
    hide WellFormed;
    var calls, replies := Calls(s), s.toolMessages;
    PickAll(CallIds(calls), s.arrived);
    assert Pick(CallIds(calls), s.arrived) == ReplyIds(replies);
    AnsweredBlock(Last(s.messages), replies);
    if WellFormed(ButLast(s.messages)) {
      WellFormedAppend(ButLast(s.messages), [Last(s.messages)] + replies);
    }
    assert s.messages + replies == ButLast(s.messages) + ([Last(s.messages)] + replies);
  }

  lemma AnsweredBlock(ask: Message, replies: seq<Message>)
    requires AsksForTools(ask) && |replies| == |ask.calls| && Answers(replies, ask.calls)
    ensures WellFormed([ask] + replies)
  {
    hide Answers;
    var block, n := [ask] + replies, |ask.calls|;
    assert block[0] == ask && n < |block|;
    assert block[1..n + 1] == replies && block[n + 1..] == [];
  }

  lemma StepKeepsShape(s: State, e: Event)
    requires Shape(s) && Step(s, e).Some?
    ensures Shape(Step(s, e).value)
  {
    hide InitMessages, LimitReached, MergeEffects;
    match e
    case Replies(content, calls) => ReplyKeepsShape(s, content, calls);
    case Completes(index, outcome) => CompletionKeepsShape(s, index, outcome);
    case _ =>
  }

  lemma StepKeepsChat(s: State, e: Event)
    requires Inv(s) && Step(s, e).Some?
    ensures ChatInOrder(Step(s, e).value)
  {
    hide InitMessages, LimitReached, MergeEffects, WellFormed, WithoutSystem, EffectOf, Accumulated;
    match e
    case Initialise(prompt) => InitMessagesWellFormed(s.messages, prompt);
    case Replies(content, calls) => ReplyKeepsChat(s, content, calls);
    case Merges => RoundAnswered(s);
    case _ =>
  }

  /** Every step keeps the invariant. */
  lemma StepKeepsInv(s: State, e: Event)
    requires Inv(s) && Step(s, e).Some?
    ensures Inv(Step(s, e).value)
  {
    hide Shape, ChatInOrder, Step;
    StepKeepsShape(s, e);
    StepKeepsChat(s, e);
  }

  lemma {:induction false} RunKeepsShape(s: State, events: seq<Event>)
    requires Shape(s) && Run(s, events).Some?
    ensures Shape(Run(s, events).value)
  {
    if events != [] {
      hide Shape, Step;
      RunKeepsShape(s, ButLast(events));
      StepKeepsShape(Run(s, ButLast(events)).value, Last(events));
    }
  }

  lemma {:induction false} RunKeepsInv(s: State, events: seq<Event>)
    requires Inv(s) && Run(s, events).Some?
    ensures Inv(Run(s, events).value)
  {
    if events != [] {
      hide Inv, Step;
      RunKeepsInv(s, ButLast(events));
      StepKeepsInv(Run(s, ButLast(events)).value, Last(events));
    }
  }

  // ------------------------------------------------------------- the chat protocol

  predicate TurnStart(s: State) {
    s.node == InitContext && Idle(s)
  }

  /** Whenever the model may be called, no tool message of an earlier round is waiting to be
      added again; and if the turn started from a well-formed chat, every earlier request for
      tools has been answered, call for call. */
  lemma ModelSeesWellFormedChat(start: State, events: seq<Event>)
    requires TurnStart(start)
    requires Run(start, events).Some? && Run(start, events).value.node == AgentLoop
    ensures var s := Run(start, events).value;
            Idle(s) && (WellFormed(WithoutSystem(start.messages)) ==> WellFormed(s.messages))
  {
    RunKeepsShape(start, events);
    if WellFormed(WithoutSystem(start.messages)) {
      RunKeepsInv(start, events);
    }
  }

  /** That is so in all runs of a turn exactly when the chat the turn starts from, system
      messages aside, is well-formed. */
  lemma ModelSeesWellFormedChatIff(start: State)
    requires TurnStart(start)
    ensures (forall events | Run(start, events).Some? && Run(start, events).value.node == AgentLoop ::
               WellFormed(Run(start, events).value.messages))
       <==> WellFormed(WithoutSystem(start.messages))
  {
    if WellFormed(WithoutSystem(start.messages)) {
      forall events | Run(start, events).Some? && Run(start, events).value.node == AgentLoop
        ensures WellFormed(Run(start, events).value.messages)
      {
        ModelSeesWellFormedChat(start, events);
      }
    } else {
      var first := [Initialise("")];
      InitMessagesWellFormed(start.messages, "");
      assert ButLast(first) == [] && Last(first) == Initialise("");
      assert Run(start, []) == Some(start);
      assert Run(start, first).Some? && Run(start, first).value.node == AgentLoop;
      assert Run(start, first).value.messages == InitMessages(start.messages, "");
      assert !WellFormed(Run(start, first).value.messages);
    }
  }

  // -------------------------------------------------------------------- termination

  function Rank(s: State): nat {
    match s.node
    case InitContext => 5
    case ExecuteTools => 4 + (if |s.arrived| < |Calls(s)| then |Calls(s)| - |s.arrived| else 0)
    case MergeResults => 3
    case AgentLoop => 2
    case Finalize => 1
    case End => 0
  }

  function StepsLeft(s: State): nat {
    if s.node == InitContext then MAX_AGENT_STEPS + 1
    else if s.steps <= MAX_AGENT_STEPS then MAX_AGENT_STEPS - s.steps
    else 0
  }

  /** Every transition makes the pair of remaining steps and rank smaller, so no run goes
      on for ever. */
  lemma MeasureDecreases(s: State, e: Event)
    requires Shape(s) && Step(s, e).Some?
    ensures var s' := Step(s, e).value;
            StepsLeft(s') < StepsLeft(s) || (StepsLeft(s') == StepsLeft(s) && Rank(s') < Rank(s))
  {
    hide ShouldEnd, Signals, InitMessages, MergeEffects, EffectOf, WellFormed;
  }

  lemma {:induction false} SomeMissing(order: seq<nat>, n: nat) returns (i: nat)
    requires DistinctBelow(order, n) && |order| < n
    ensures i < n && i !in order
  {
    if exists p :: 0 <= p < |order| && order[p] == n - 1 {
      var p :| 0 <= p < |order| && order[p] == n - 1;
      WithoutLargest(order, n, p);
      i := SomeMissing(Without(order, p), n - 1);
      forall k | 0 <= k < |order| ensures order[k] != i {
        if k < p { assert Without(order, p)[k] == order[k]; }
        if k > p { assert Without(order, p)[k - 1] == order[k]; }
      }
    } else {
      i := n - 1;
    }
  }

  /** A run stops only at the end, with a report; everywhere else some step is possible
      whatever the model and the tools do. */
  lemma Progress(s: State) returns (e: Event)
    requires Shape(s)
    ensures s.node != End <==> Step(s, e).Some?
    ensures s.node == End ==> s.report.Some? && s.finished && forall e' :: Step(s, e').None?
  {
    hide WellFormed, Signals, InitMessages, MergeEffects, EffectOf, LimitReached;
    match s.node
    case InitContext => e := Initialise("");
    case AgentLoop => e := if LimitReached(s) then Stops else Fails;
    case ExecuteTools =>
      var i := SomeMissing(s.arrived, |Calls(s)|);
      e := Completes(i, Raised);
    case MergeResults => e := Merges;
    case Finalize => e := Reports;
    case End => e := Reports;
  }

  /** So in every run of every turn, whatever chat it starts from, each step makes the
      measure smaller and the run can go on until it has ended with a report. */
  lemma TurnsEnd(start: State, events: seq<Event>) returns (e: Event)
    requires TurnStart(start) && Run(start, events).Some?
    ensures var s := Run(start, events).value;
            && (s.node != End <==> Step(s, e).Some?)
            && (s.node == End ==> s.finished && s.report.Some?)
            && (forall e' | Step(s, e').Some? ::
                  var s' := Step(s, e').value;
                  StepsLeft(s') < StepsLeft(s) || (StepsLeft(s') == StepsLeft(s) && Rank(s') < Rank(s)))
  {
    hide Step, Shape, StepsLeft, Rank;
    RunKeepsShape(start, events) by { StartShape(start); }
    var s := Run(start, events).value;
    e := Progress(s);
    forall e' | Step(s, e').Some?
      ensures var s' := Step(s, e').value;
              StepsLeft(s') < StepsLeft(s) || (StepsLeft(s') == StepsLeft(s) && Rank(s') < Rank(s))
    {
      MeasureDecreases(s, e');
    }
  }

  lemma StartShape(start: State)
    requires TurnStart(start)
    ensures Shape(start)
  {
  }

  /** After the agent node the router finalises exactly when `finished` is set, and
      otherwise fans out to at least one tool. */
  lemma RouteFinalizesIffFinished(s: State, e: Event)
    requires Shape(s) && s.node == AgentLoop && Step(s, e).Some?
    ensures var s' := Step(s, e).value;
            && s'.node == Route(s')
            && (s'.node == Finalize <==> s'.finished)
            && (s'.node == ExecuteTools <==> !s'.finished && Calls(s') != [])
            && (s'.node == ExecuteTools ==> RoundStart(s'))
  {
    hide WellFormed, Signals, LimitReached;
    if e.Replies? {
      assert Last(s.messages + [Ai(e.content, e.calls)]) == Ai(e.content, e.calls);
    }
  }

  function ModelCalls(events: seq<Event>): nat {
    if events == [] then 0
    else ModelCalls(ButLast(events)) + (if Last(events).Replies? || Last(events).Fails? then 1 else 0)
  }

  predicate Ending(s: State) {
    s.node == Finalize || s.node == End
  }

  lemma ModelCallStep(s: State, e: Event, n: nat)
    requires Shape(s) && Step(s, e).Some?
    requires s.node == InitContext ==> n == 0
    requires n <= if Ending(s) then s.steps + 1 else if s.node == InitContext then 0 else s.steps
    requires n <= MAX_AGENT_STEPS
    ensures var s', n' := Step(s, e).value, n + if e.Replies? || e.Fails? then 1 else 0;
            && n' <= (if Ending(s') then s'.steps + 1 else if s'.node == InitContext then 0 else s'.steps)
            && n' <= MAX_AGENT_STEPS
            && s'.node != InitContext
  {
    hide WellFormed, Signals, InitMessages, MergeEffects, EffectOf, ShouldEnd;
  }

  /** A turn calls the model at most thirty times. */
  lemma {:induction false} ModelCallsBounded(start: State, events: seq<Event>)
    requires TurnStart(start) && Run(start, events).Some?
    ensures var s := Run(start, events).value;
            && ModelCalls(events) <= MAX_AGENT_STEPS
            && ModelCalls(events) <= (if Ending(s) then s.steps + 1 else if s.node == InitContext then 0 else s.steps)
            && (s.node == InitContext ==> events == [])
  {
    if events != [] {
      ModelCallsBounded(start, ButLast(events));
      var s := Run(start, ButLast(events)).value;
      RunKeepsShape(start, ButLast(events));
      ModelCallStep(s, Last(events), ModelCalls(ButLast(events)));
    }
  }

  // ------------------------------------------------------------------ the accounting

  ghost predicate Balanced(m: Memory) {
    m.turnCount == TotalScores(m.scores)
  }

  function CountEvaluated(effects: seq<ToolEffect>): nat {
    if effects == [] then 0
    else CountEvaluated(ButLast(effects)) + (if Last(effects).effect.qaPatch.Some? then 1 else 0)
  }

  /** Every effect in the accumulator came from a tool: a turn for each evaluation. */
  predicate FromTools(effects: seq<ToolEffect>) {
    forall e | e in effects :: Accounted(e) && e.effect.turnDelta == if e.effect.qaPatch.Some? then 1 else 0
  }

  lemma EffectFromTool(index: nat, call: Call, outcome: ToolOutcome)
    ensures FromTools([EffectOf(index, call, outcome)])
    ensures EffectOf(index, call, outcome).effect.qaPatch.Some? <==> Evaluates(call, outcome)
  {
    EffectAccounted(index, call, outcome);
  }

  lemma {:induction false} TurnsAreEvaluations(effects: seq<ToolEffect>)
    requires FromTools(effects)
    ensures TurnsAdded(effects) == CountEvaluated(effects)
  {
    if effects != [] {
      assert Last(effects) in effects;
      TurnsAreEvaluations(ButLast(effects));
    }
  }

  lemma {:induction false} CountAppend(a: seq<ToolEffect>, b: seq<ToolEffect>)
    ensures CountEvaluated(a + b) == CountEvaluated(a) + CountEvaluated(b)
  {
    if b == [] {
      assert a + b == a;
    } else {
      assert ButLast(a + b) == a + ButLast(b) && Last(a + b) == Last(b);
      CountAppend(a, ButLast(b));
    }
  }

  lemma CountSnoc(a: seq<ToolEffect>, x: ToolEffect)
    ensures CountEvaluated(a + [x]) == CountEvaluated(a) + if x.effect.qaPatch.Some? then 1 else 0
  {
    assert ButLast(a + [x]) == a;
  }

  lemma CountAround(a: seq<ToolEffect>, x: ToolEffect, b: seq<ToolEffect>)
    ensures CountEvaluated(a + [x] + b) == CountEvaluated(a + b) + if x.effect.qaPatch.Some? then 1 else 0
  {
    hide CountEvaluated;
    CountSnoc(a, x);
    CountAppend(a + [x], b);
    CountAppend(a, b);
  }

  lemma CountWithout(effects: seq<ToolEffect>, p: nat)
    requires p < |effects|
    ensures CountEvaluated(effects)
         == CountEvaluated(Without(effects, p)) + if effects[p].effect.qaPatch.Some? then 1 else 0
  {
    hide CountEvaluated;
    assert effects == effects[..p] + [effects[p]] + effects[p + 1..];
    CountAround(effects[..p], effects[p], effects[p + 1..]);
  }

  lemma {:induction false} CountPermuted(a: seq<ToolEffect>, b: seq<ToolEffect>)
    requires multiset(a) == multiset(b)
    ensures CountEvaluated(a) == CountEvaluated(b)
    decreases |a|
  {
    assert |a| == |multiset(a)| == |multiset(b)| == |b|;
    if a != [] {
      var n := |a| - 1;
      assert a[n] in multiset(b);
      var p :| 0 <= p < |b| && b[p] == a[n];
      MultisetWithout(a, n);
      MultisetWithout(b, p);
      CountWithout(a, n);
      CountWithout(b, p);
      CountPermuted(Without(a, n), Without(b, p));
    }
  }

  /** A merge adds exactly the evaluations of the round to the turn count, and as many
      scores; no other step touches either. */
  lemma TurnAccounting(s: State, e: Event)
    requires FromTools(s.toolEffects) && Step(s, e).Some?
    ensures var s' := Step(s, e).value;
            && FromTools(s'.toolEffects)
            && s'.memory.turnCount == s.memory.turnCount + (if e.Merges? then CountEvaluated(s.toolEffects) else 0)
            && (Balanced(s.memory) ==> Balanced(s'.memory))
            && (e.Completes? ==>
                  CountEvaluated(s'.toolEffects)
                  == CountEvaluated(s.toolEffects) + if Evaluates(Calls(s)[e.index], e.outcome) then 1 else 0)
  {
    if e.Merges? {
      MergeAccounting(s.memory, s.toolEffects);
    } else if e.Completes? {
      CompletionAccounting(s, e.index, e.outcome);
    } else {
      hide Signals, LimitReached, InitMessages, WithoutSystem;
    }
  }

  lemma CompletionAccounting(s: State, index: nat, outcome: ToolOutcome)
    requires FromTools(s.toolEffects) && Step(s, Completes(index, outcome)).Some?
    ensures var s' := Step(s, Completes(index, outcome)).value;
            && FromTools(s'.toolEffects) && s'.memory == s.memory
            && CountEvaluated(s'.toolEffects)
               == CountEvaluated(s.toolEffects) + if Evaluates(Calls(s)[index], outcome) then 1 else 0
  {
    hide EffectOf, Accounted, CountEvaluated;
    var effect := EffectOf(index, Calls(s)[index], outcome);
    EffectFromTool(index, Calls(s)[index], outcome);
    assert effect in [effect];
    CountSnoc(s.toolEffects, effect);
  }

  lemma MergeAccounting(m: Memory, effects: seq<ToolEffect>)
    requires FromTools(effects)
    ensures MergeEffects(m, effects).turnCount == m.turnCount + CountEvaluated(effects)
    ensures Balanced(m) ==> Balanced(MergeEffects(m, effects))
  {
    var sorted := SortBy(effects, BY_INDEX);
    SortByCorrect(effects, BY_INDEX);
    assert FromTools(sorted) by {
      forall e | e in sorted ensures e in effects { assert e in multiset(sorted); }
    }
    AccountsBalance(m, sorted);
    TurnsAreEvaluations(sorted);
    CountPermuted(sorted, effects);
  }

  /** In every reachable state the turn count is the number of scores recorded, and it has
      not gone down. */
  lemma {:induction false} RunAccounting(start: State, events: seq<Event>)
    requires FromTools(start.toolEffects) && Run(start, events).Some?
    ensures FromTools(Run(start, events).value.toolEffects)
    ensures Run(start, events).value.memory.turnCount >= start.memory.turnCount
    ensures Balanced(start.memory) ==> Balanced(Run(start, events).value.memory)
  {
    if events != [] {
      RunAccounting(start, ButLast(events));
      TurnAccounting(Run(start, ButLast(events)).value, Last(events));
    }
  }

  predicate NoEmptyDeltas(effects: seq<ToolEffect>) {
    forall e | e in effects :: NoEmptyDelta(e.effect.scoresDelta)
  }

  lemma CompletionKeepsScored(s: State, index: nat, outcome: ToolOutcome)
    requires NoEmptyDeltas(s.toolEffects) && Step(s, Completes(index, outcome)).Some?
    ensures NoEmptyDeltas(Step(s, Completes(index, outcome)).value.toolEffects)
  {
    var effect := EffectOf(index, Calls(s)[index], outcome);
    assert NoEmptyDelta(effect.effect.scoresDelta);
    hide EffectOf, NoEmptyDelta;
  }

  lemma MergeKeepsScored(m: Memory, effects: seq<ToolEffect>)
    requires AllScored(m.scores) && NoEmptyDeltas(effects)
    ensures AllScored(MergeEffects(m, effects).scores)
  {
    var sorted := SortBy(effects, BY_INDEX);
    SortByCorrect(effects, BY_INDEX);
    forall x | x in sorted ensures x in effects { assert x in multiset(sorted); }
    AllScoredKept(m, sorted);
  }

  lemma StepKeepsScored(s: State, e: Event)
    requires AllScored(s.memory.scores) && NoEmptyDeltas(s.toolEffects) && Step(s, e).Some?
    ensures AllScored(Step(s, e).value.memory.scores) && NoEmptyDeltas(Step(s, e).value.toolEffects)
  {
    hide Signals, LimitReached, InitMessages, AllScored, WithoutSystem, MergeEffects, NoEmptyDelta, EffectOf;
    if e.Completes? {
      hide NoEmptyDeltas;
      CompletionKeepsScored(s, e.index, e.outcome);
    } else if e.Merges? {
      MergeKeepsScored(s.memory, s.toolEffects);
    }
  }

  /** No run leaves a category without scores: the averages that the context of the next
      turn and the report compute are always defined. */
  lemma {:induction false} RunKeepsScored(start: State, events: seq<Event>)
    requires AllScored(start.memory.scores) && NoEmptyDeltas(start.toolEffects) && Run(start, events).Some?
    ensures AllScored(Run(start, events).value.memory.scores)
    ensures NoEmptyDeltas(Run(start, events).value.toolEffects)
  {
    if events != [] {
      RunKeepsScored(start, ButLast(events));
      StepKeepsScored(Run(start, ButLast(events)).value, Last(events));
    }
  }

  // ------------------------------------------------------------- rounds in any order

  /** What the calls of a round do, in call order. */
  function RoundEffects(calls: seq<Call>, outcomes: seq<ToolOutcome>): seq<ToolEffect>
    requires |outcomes| == |calls|
  {
    seq(|calls|, i requires 0 <= i < |calls| => EffectOf(i, calls[i], outcomes[i]))
  }

  function RoundReplies(calls: seq<Call>): seq<Message> {
    seq(|calls|, i requires 0 <= i < |calls| => Tool(calls[i].id))
  }

  /** The calls completing in a given order. */
  function Completions(order: seq<nat>, outcomes: seq<ToolOutcome>): seq<Event>
    requires forall i | 0 <= i < |order| :: order[i] < |outcomes|
  {
    seq(|order|, k requires 0 <= k < |order| => Completes(order[k], outcomes[order[k]]))
  }

  predicate RoundStart(s: State) {
    s.node == ExecuteTools && s.arrived == [] && Idle(s) && Calls(s) != []
  }

  predicate Partway(s: State, start: State, outcomes: seq<ToolOutcome>, order: seq<nat>)
    requires |outcomes| == |Calls(start)| && DistinctBelow(order, |outcomes|)
  {
    && Calls(s) == Calls(start)
    && s == start.(node := if |order| == |outcomes| then MergeResults else ExecuteTools,
                   arrived := order,
                   toolMessages := Pick(RoundReplies(Calls(start)), order),
                   toolEffects := Pick(RoundEffects(Calls(start), outcomes), order))
  }

  lemma CompletionPartway(s: State, start: State, outcomes: seq<ToolOutcome>, order: seq<nat>, index: nat)
    requires |outcomes| == |Calls(start)| && index < |outcomes|
    requires DistinctBelow(order + [index], |outcomes|) && DistinctBelow(order, |outcomes|)
    requires RoundStart(start) && |order| < |outcomes| && Partway(s, start, outcomes, order)
    ensures Step(s, Completes(index, outcomes[index])).Some?
    ensures Partway(Step(s, Completes(index, outcomes[index])).value, start, outcomes, order + [index])
  {
    hide EffectOf;
    var calls := Calls(start);
    assert (order + [index])[|order|] == index;
    assert index !in order by {
      forall k | 0 <= k < |order| ensures order[k] != index { assert (order + [index])[k] == order[k]; }
    }
    assert Pick(RoundReplies(calls), order + [index]) == Pick(RoundReplies(calls), order) + [Tool(calls[index].id)];
    assert Pick(RoundEffects(calls, outcomes), order + [index])
        == Pick(RoundEffects(calls, outcomes), order) + [EffectOf(index, calls[index], outcomes[index])];
  }

  lemma {:induction false} CompletionsRun(start: State, outcomes: seq<ToolOutcome>, order: seq<nat>)
    requires |outcomes| == |Calls(start)| && DistinctBelow(order, |outcomes|) && RoundStart(start)
    ensures Run(start, Completions(order, outcomes)).Some?
    ensures Partway(Run(start, Completions(order, outcomes)).value, start, outcomes, order)
  {
    if order == [] {
      assert Completions(order, outcomes) == [];
      assert Pick(RoundReplies(Calls(start)), order) == [];
      assert Pick(RoundEffects(Calls(start), outcomes), order) == [];
    } else {
      hide Step, Partway;
      var before, index := ButLast(order), Last(order);
      assert order == before + [index];
      CompletionsRun(start, outcomes, before);
      AtMost(order, |outcomes|);
      CompletionPartway(Run(start, Completions(before, outcomes)).value, start, outcomes, before, index);
      var events := Completions(order, outcomes);
      assert ButLast(events) == Completions(before, outcomes) && Last(events) == Completes(index, outcomes[index]);
    }
  }

  lemma RoundEffectsSorted(calls: seq<Call>, outcomes: seq<ToolOutcome>)
    requires |outcomes| == |calls|
    ensures SortedBy(RoundEffects(calls, outcomes), BY_INDEX) && DistinctKeys(RoundEffects(calls, outcomes), BY_INDEX)
  {
    forall i | 0 <= i < |calls| ensures BY_INDEX(RoundEffects(calls, outcomes)[i]) == i {
      EffectIndex(i, calls[i], outcomes[i]);
    }
  }

  /** A whole round: whatever order the tools complete in, and whichever of them raise,
      the merge leaves the working memory as if they had run one after the other in call
      order, and adds exactly one tool message per call to the chat. */
  lemma RoundConfluent(start: State, outcomes: seq<ToolOutcome>, order: seq<nat>)
    requires RoundStart(start) && |outcomes| == |Calls(start)| == |order| && DistinctBelow(order, |order|)
    ensures var after := Run(start, Completions(order, outcomes) + [Merges]);
            && after.Some? && after.value.node == AgentLoop && Idle(after.value)
            && after.value.memory == ApplyAll(start.memory, RoundEffects(Calls(start), outcomes))
            && start.messages <= after.value.messages
            && multiset(after.value.messages[|start.messages|..]) == multiset(RoundReplies(Calls(start)))
  {
    hide EffectOf, ApplyAll, MergeEffects, Pick, Completions, RoundEffects, RoundReplies;
    var calls, events := Calls(start), Completions(order, outcomes);
    CompletionsRun(start, outcomes, order);
    var s := Run(start, events).value;
    assert ButLast(events + [Merges]) == events && Last(events + [Merges]) == Merges;
    RoundPicked(calls, outcomes, order);
    RoundEffectsSorted(calls, outcomes);
    MergeConfluent(start.memory, s.toolEffects, RoundEffects(calls, outcomes));
    assert (start.messages + s.toolMessages)[|start.messages|..] == s.toolMessages;
  }

  lemma RoundPicked(calls: seq<Call>, outcomes: seq<ToolOutcome>, order: seq<nat>)
    requires |outcomes| == |calls| == |order| && DistinctBelow(order, |order|)
    ensures multiset(Pick(RoundEffects(calls, outcomes), order)) == multiset(RoundEffects(calls, outcomes))
    ensures multiset(Pick(RoundReplies(calls), order)) == multiset(RoundReplies(calls))
  {
    PickAll(RoundEffects(calls, outcomes), order);
    PickAll(RoundReplies(calls), order);
  }

  // -------------------------------------------------------- what a round records

  predicate EvaluatesRecord(call: Call, outcome: ToolOutcome, index: int) {
    Evaluates(call, outcome) && outcome.questionIndex == index
  }

  /** Call `k` evaluates the record, and no later call does. */
  predicate LastEvaluating(calls: seq<Call>, outcomes: seq<ToolOutcome>, index: int, k: int)
    requires |outcomes| == |calls|
  {
    && 0 <= k < |calls| && EvaluatesRecord(calls[k], outcomes[k], index)
    && forall j | k < j < |calls| :: !EvaluatesRecord(calls[j], outcomes[j], index)
  }

  /** The scores that the evaluations of a round give to a category, in call order. */
  function EvaluatedScores(calls: seq<Call>, outcomes: seq<ToolOutcome>, category: string): seq<int>
    requires |outcomes| == |calls|
  {
    if calls == [] then []
    else
      EvaluatedScores(ButLast(calls), ButLast(outcomes), category)
      + if Evaluates(Last(calls), Last(outcomes)) && Last(outcomes).scoredCategory == category
        then [Last(outcomes).score] else []
  }

  lemma RoundEffectsSnoc(calls: seq<Call>, outcomes: seq<ToolOutcome>)
    requires |outcomes| == |calls| && calls != []
    ensures RoundEffects(calls, outcomes) != []
    ensures ButLast(RoundEffects(calls, outcomes)) == RoundEffects(ButLast(calls), ButLast(outcomes))
    ensures Last(RoundEffects(calls, outcomes)) == EffectOf(|calls| - 1, Last(calls), Last(outcomes))
  {
    hide EffectOf;
  }

  lemma EffectPatch(index: nat, call: Call, outcome: ToolOutcome)
    ensures EffectOf(index, call, outcome).effect.qaPatch
         == if Evaluates(call, outcome) then
              Some(QaRecord(outcome.questionIndex,
                map["score" := Num(outcome.score), "feedback" := Str(outcome.feedback)]))
            else None
  {
  }

  lemma EffectScores(index: nat, call: Call, outcome: ToolOutcome, category: string)
    ensures DeltaFor(EffectOf(index, call, outcome).effect.scoresDelta, category)
         == if Evaluates(call, outcome) && outcome.scoredCategory == category then [outcome.score] else []
  {
    if Evaluates(call, outcome) {
      assert [(outcome.scoredCategory, [outcome.score])][1..] == [];
      assert DeltaFor([(outcome.scoredCategory, [outcome.score])][1..], category) == [];
    }
  }

  lemma {:induction false} RoundPatched(calls: seq<Call>, outcomes: seq<ToolOutcome>, index: int, k: int)
    requires |outcomes| == |calls| && LastEvaluating(calls, outcomes, index, k)
    ensures var effects := RoundEffects(calls, outcomes);
            && LastPatched(effects, index, "score") == Some(Num(outcomes[k].score))
            && LastPatched(effects, index, "feedback") == Some(Str(outcomes[k].feedback))
  {
    hide RoundEffects, EffectOf;
    RoundEffectsSnoc(calls, outcomes);
    if k == |calls| - 1 {
      EffectPatch(k, calls[k], outcomes[k]);
    } else {
      EffectPatch(|calls| - 1, Last(calls), Last(outcomes));
      assert !EvaluatesRecord(Last(calls), Last(outcomes), index) by { assert calls[|calls| - 1] == Last(calls); }
      RoundPatched(ButLast(calls), ButLast(outcomes), index, k);
      assert ButLast(outcomes)[k] == outcomes[k];
    }
  }

  lemma {:induction false} RoundNotPatched(calls: seq<Call>, outcomes: seq<ToolOutcome>, index: int, field: string)
    requires |outcomes| == |calls|
    requires forall j | 0 <= j < |calls| :: !EvaluatesRecord(calls[j], outcomes[j], index)
    ensures LastPatched(RoundEffects(calls, outcomes), index, field) == None
  {
    if calls != [] {
      hide RoundEffects, EffectOf;
      RoundEffectsSnoc(calls, outcomes);
      EffectPatch(|calls| - 1, Last(calls), Last(outcomes));
      assert !EvaluatesRecord(Last(calls), Last(outcomes), index);
      RoundNotPatched(ButLast(calls), ButLast(outcomes), index, field);
    }
  }

  lemma {:induction false} RoundScoresAdded(calls: seq<Call>, outcomes: seq<ToolOutcome>, category: string)
    requires |outcomes| == |calls|
    ensures ScoresAdded(RoundEffects(calls, outcomes), category) == EvaluatedScores(calls, outcomes, category)
  {
    if calls != [] {
      hide RoundEffects, EffectOf, DeltaFor;
      RoundEffectsSnoc(calls, outcomes);
      EffectScores(|calls| - 1, Last(calls), Last(outcomes), category);
      RoundScoresAdded(ButLast(calls), ButLast(outcomes), category);
    }
  }

  /** What a whole round records, whatever order its tools complete in: a record holds the
      score and feedback of the last call, in call order, that evaluates it, and all its
      keys are as before if none does; each category gains the scores of its evaluations
      in call order. */
  lemma RoundRecorded(start: State, outcomes: seq<ToolOutcome>, order: seq<nat>, index: int, category: string)
    requires RoundStart(start) && |outcomes| == |Calls(start)| == |order| && DistinctBelow(order, |order|)
    ensures Run(start, Completions(order, outcomes) + [Merges]).Some?
    ensures var before, after, calls :=
              start.memory, Run(start, Completions(order, outcomes) + [Merges]).value.memory, Calls(start);
            && (forall k | LastEvaluating(calls, outcomes, index, k) ::
                  && FieldAt(after.qa, index, "score") == Some(Num(outcomes[k].score))
                  && FieldAt(after.qa, index, "feedback") == Some(Str(outcomes[k].feedback)))
            && ((forall j | 0 <= j < |calls| :: !EvaluatesRecord(calls[j], outcomes[j], index)) ==>
                  forall field :: FieldAt(after.qa, index, field) == FieldAt(before.qa, index, field))
            && ScoresOf(after.scores, category)
               == ScoresOf(before.scores, category) + EvaluatedScores(calls, outcomes, category)
  {
    hide ApplyAll, RoundEffects, Run, Completions, RoundStart, FieldAt, ScoresOf, EvaluatedScores, DistinctBelow;
    var calls := Calls(start);
    var effects := RoundEffects(calls, outcomes);
    RoundConfluent(start, outcomes, order);
    MergedScores(start.memory, effects, category);
    RoundScoresAdded(calls, outcomes, category);
    forall k | LastEvaluating(calls, outcomes, index, k)
      ensures FieldAt(ApplyAll(start.memory, effects).qa, index, "score") == Some(Num(outcomes[k].score))
      ensures FieldAt(ApplyAll(start.memory, effects).qa, index, "feedback") == Some(Str(outcomes[k].feedback))
    {
      RoundPatched(calls, outcomes, index, k);
      LastPatchWins(start.memory, effects, index, "score");
      LastPatchWins(start.memory, effects, index, "feedback");
    }
    if forall j | 0 <= j < |calls| :: !EvaluatesRecord(calls[j], outcomes[j], index) {
      forall field
        ensures FieldAt(ApplyAll(start.memory, effects).qa, index, field) == FieldAt(start.memory.qa, index, field)
      {
        RoundNotPatched(calls, outcomes, index, field);
        LastPatchWins(start.memory, effects, index, field);
      }
    }
  }

  /** No step forgets a question of the history or makes its indices ambiguous. */
  lemma {:induction false} RunKeepsHistory(start: State, events: seq<Event>)
    requires Run(start, events).Some?
    ensures var qa := Run(start, events).value.memory.qa;
            && Indices(start.memory.qa) <= Indices(qa)
            && (UniqueIndices(start.memory.qa) ==> UniqueIndices(qa))
  {
    if events != [] {
      RunKeepsHistory(start, ButLast(events));
      var s := Run(start, ButLast(events)).value;
      HistoryIndicesKept(s.memory, SortBy(s.toolEffects, BY_INDEX));
      StepHistory(s, Last(events));
    }
  }

  lemma StepHistory(s: State, e: Event)
    requires Step(s, e).Some?
    ensures Step(s, e).value.memory.qa
         == if e.Merges? then ApplyAll(s.memory, SortBy(s.toolEffects, BY_INDEX)).qa else s.memory.qa
  {
    hide Signals, LimitReached, InitMessages, EffectOf, SortBy, ApplyAll;
  }
}
