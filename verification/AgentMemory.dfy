/** The working memory of the adaptive interview agent and how the effects of tools
    that ran in parallel are folded into it
    (`backend/app/graphs/adaptive_interview.py`, `_merge_tool_results`). */
module AgentMemory {
  import opened Text

  datatype Value = Null | Num(n: int) | Str(s: string)

  /** A question-answer record, or a patch of one: its index and its other keys. */
  datatype QaRecord = QaRecord(questionIndex: int, fields: map<string, Value>)

  datatype Setting = CurrentQuestion | CurrentCategory | Difficulty

  datatype TraceEntry = TraceEntry(step: int, action: string)

  datatype SideEffect = SideEffect(
    qaPatch: Option<QaRecord>,
    scoresDelta: seq<(string, seq<int>)>,
    turnDelta: int,
    others: map<Setting, string>)

  const NO_EFFECT := SideEffect(None, [], 0, map[])

  datatype ToolEffect = ToolEffect(index: nat, effect: SideEffect, trace: TraceEntry)

  datatype Memory = Memory(
    qa: seq<QaRecord>,
    scores: map<string, seq<int>>,
    turnCount: int,
    settings: map<Setting, string>,
    trace: seq<TraceEntry>)

  // --------------------------------------------------------- one effect at a time

  /** The position of the first record with this index, or the number of records. */
  function FindRecord(qa: seq<QaRecord>, index: int): (k: nat)
    ensures k <= |qa|
    ensures k < |qa| ==> qa[k].questionIndex == index
  {
    if qa == [] || qa[0].questionIndex == index then 0 else 1 + FindRecord(qa[1..], index)
  }

  function ApplyPatch(qa: seq<QaRecord>, patch: QaRecord): seq<QaRecord> {
    var k := FindRecord(qa, patch.questionIndex);
    if k < |qa| then qa[k := qa[k].(fields := qa[k].fields + patch.fields)] else qa + [patch]
  }

  function ScoresOf(scores: map<string, seq<int>>, category: string): seq<int> {
    if category in scores then scores[category] else []
  }

  function AddScores(scores: map<string, seq<int>>, delta: seq<(string, seq<int>)>): map<string, seq<int>>
    decreases |delta|
  {
    if delta == [] then scores
    else
      var (category, more) := delta[0];
      AddScores(scores[category := ScoresOf(scores, category) + more], delta[1..])
  }

  function ApplyEffect(m: Memory, e: ToolEffect): Memory {
    Memory(
      match e.effect.qaPatch case Some(p) => ApplyPatch(m.qa, p) case None => m.qa,
      AddScores(m.scores, e.effect.scoresDelta),
      m.turnCount + e.effect.turnDelta,
      m.settings + e.effect.others,
      m.trace + [e.trace])
  }

  function ApplyAll(m: Memory, effects: seq<ToolEffect>): Memory {
    if effects == [] then m else ApplyEffect(ApplyAll(m, ButLast(effects)), Last(effects))
  }

  // -------------------------------------------------------------- sorting by index

  /** Python's stable `sorted(xs, key=...)`. */
  function SortBy<T>(xs: seq<T>, key: T -> nat): seq<T> {
    if xs == [] then [] else InsertBy(SortBy(ButLast(xs), key), Last(xs), key)
  }

  /** Into a sorted sequence, behind the elements with an equal key. */
  function InsertBy<T>(xs: seq<T>, x: T, key: T -> nat): seq<T> {
    if xs == [] || key(Last(xs)) <= key(x) then xs + [x]
    else InsertBy(ButLast(xs), x, key) + [Last(xs)]
  }

  predicate SortedBy<T>(xs: seq<T>, key: T -> nat) {
    forall i, j | 0 <= i < j < |xs| :: key(xs[i]) <= key(xs[j])
  }

  lemma SnocFacts<T>(xs: seq<T>, key: T -> nat)
    requires xs != []
    ensures xs == ButLast(xs) + [Last(xs)]
    ensures multiset(xs) == multiset(ButLast(xs)) + multiset{Last(xs)}
    ensures multiset(ButLast(xs)) == multiset(xs) - multiset{Last(xs)}
    ensures SortedBy(xs, key) ==> SortedBy(ButLast(xs), key)
  {
    assert xs == ButLast(xs) + [Last(xs)];
  }

  lemma DistinctPrefix<T>(xs: seq<T>, key: T -> nat)
    requires xs != [] && DistinctKeys(xs, key)
    ensures DistinctKeys(ButLast(xs), key)
  {
  }

  lemma {:induction false} InsertByMultiset<T>(xs: seq<T>, x: T, key: T -> nat)
    ensures multiset(InsertBy(xs, x, key)) == multiset(xs) + multiset{x}
  {
    if xs == [] || key(Last(xs)) <= key(x) {
    } else {
      InsertByMultiset(ButLast(xs), x, key);
      assert xs == ButLast(xs) + [Last(xs)];
    }
  }

  lemma {:induction false} InsertBySorted<T>(xs: seq<T>, x: T, key: T -> nat)
    requires SortedBy(xs, key)
    ensures SortedBy(InsertBy(xs, x, key), key)
  {
    if xs == [] || key(Last(xs)) <= key(x) {
    } else {
      InsertBySorted(ButLast(xs), x, key);
      InsertByMultiset(ButLast(xs), x, key);
      var r := InsertBy(ButLast(xs), x, key);
      forall i | 0 <= i < |r| ensures key(r[i]) <= key(Last(xs)) {
        assert r[i] in multiset(r);
      }
    }
  }

  lemma {:induction false} SortByCorrect<T>(xs: seq<T>, key: T -> nat)
    ensures SortedBy(SortBy(xs, key), key)
    ensures multiset(SortBy(xs, key)) == multiset(xs)
  {
    if xs != [] {
      SortByCorrect(ButLast(xs), key);
      InsertBySorted(SortBy(ButLast(xs), key), Last(xs), key);
      InsertByMultiset(SortBy(ButLast(xs), key), Last(xs), key);
      assert xs == ButLast(xs) + [Last(xs)];
    }
  }

  lemma LastOfSorted<T>(xs: seq<T>, ys: seq<T>, key: T -> nat)
    requires xs != [] && SortedBy(xs, key) && SortedBy(ys, key)
    requires DistinctKeys(xs, key)
    requires multiset(xs) == multiset(ys)
    ensures ys != [] && Last(xs) == Last(ys)
  {
    assert Last(xs) in multiset(ys);
    var j :| 0 <= j < |ys| && ys[j] == Last(xs);
    assert Last(ys) in multiset(xs);
    var i :| 0 <= i < |xs| && xs[i] == Last(ys);
    assert key(xs[i]) == key(Last(xs));
  }

  /** Sorted arrangements of the same elements with distinct keys are equal. */
  lemma {:induction false} SortedUnique<T>(xs: seq<T>, ys: seq<T>, key: T -> nat)
    requires SortedBy(xs, key) && SortedBy(ys, key)
    requires DistinctKeys(xs, key)
    requires multiset(xs) == multiset(ys)
    ensures xs == ys
    decreases |xs|
  {
    if xs == [] {
      assert |ys| == |multiset(ys)| == |multiset(xs)| == 0;
    } else {
      hide SortedBy, DistinctKeys, Last, ButLast;
      LastOfSorted(xs, ys, key);
      SnocFacts(xs, key);
      SnocFacts(ys, key);
      DistinctPrefix(xs, key);
      SortedUnique(ButLast(xs), ButLast(ys), key);
    }
  }

  // ------------------------------------------------------------ merging a round

  const BY_INDEX: ToolEffect -> nat := (e: ToolEffect) => e.index

  /** `_merge_tool_results` on the working memory. */
  function MergeEffects(m: Memory, effects: seq<ToolEffect>): Memory {
    ApplyAll(m, SortBy(effects, BY_INDEX))
  }

  lemma {:induction false} DistinctPermuted<T>(xs: seq<T>, ys: seq<T>, key: T -> nat)
    requires multiset(xs) == multiset(ys) && DistinctKeys(xs, key)
    ensures DistinctKeys(ys, key)
  {
    forall i, j | 0 <= i < j < |ys| ensures key(ys[i]) != key(ys[j]) {
      if key(ys[i]) == key(ys[j]) {
        var a, b := ys[i], ys[j];
        assert a in multiset(ys) && b in multiset(ys);
        var i' :| 0 <= i' < |xs| && xs[i'] == a;
        var j' :| 0 <= j' < |xs| && xs[j'] == b;
        assert i' == j' && a == b;
        TwiceInMultiset(ys, i, j);
        OnceInMultiset(xs, i', key);
        assert false;
      }
    }
  }

  lemma TwiceInMultiset<T>(s: seq<T>, i: nat, j: nat)
    requires i < j < |s| && s[i] == s[j]
    ensures multiset(s)[s[i]] >= 2
  {
    assert s == s[..j] + [s[j]] + s[j + 1..];
    assert s[i] in s[..j];
    assert multiset(s) == multiset(s[..j]) + multiset{s[j]} + multiset(s[j + 1..]);
  }

  lemma OnceInMultiset<T>(s: seq<T>, i: nat, key: T -> nat)
    requires i < |s| && DistinctKeys(s, key)
    ensures multiset(s)[s[i]] == 1
  {
    assert s == s[..i] + [s[i]] + s[i + 1..];
    assert multiset(s) == multiset(s[..i]) + multiset{s[i]} + multiset(s[i + 1..]);
    assert s[i] !in s[..i] && s[i] !in s[i + 1..];
  }

  /** Whatever order the parallel tools finished in, the merge is the effects applied
      one at a time in call order. */
  lemma MergeConfluent(m: Memory, arrived: seq<ToolEffect>, inCallOrder: seq<ToolEffect>)
    requires multiset(arrived) == multiset(inCallOrder)
    requires DistinctKeys(inCallOrder, BY_INDEX) && SortedBy(inCallOrder, BY_INDEX)
    ensures MergeEffects(m, arrived) == ApplyAll(m, inCallOrder)
  {
    SortByCorrect(arrived, BY_INDEX);
    SortedUnique(inCallOrder, SortBy(arrived, BY_INDEX), BY_INDEX);
  }

  /** So two orders of arrival cannot be told apart afterwards. */
  lemma MergeOrderIndependent(m: Memory, arrived: seq<ToolEffect>, arrived': seq<ToolEffect>)
    requires multiset(arrived) == multiset(arrived')
    requires DistinctKeys(arrived, BY_INDEX)
    ensures MergeEffects(m, arrived) == MergeEffects(m, arrived')
  {
    var sorted := SortBy(arrived, BY_INDEX);
    SortByCorrect(arrived, BY_INDEX);
    DistinctPermuted(arrived, sorted, BY_INDEX);
    MergeConfluent(m, arrived, sorted);
    MergeConfluent(m, arrived', sorted);
  }

  // --------------------------------------------------------------- history keys

  function Indices(qa: seq<QaRecord>): seq<int> {
    seq(|qa|, i requires 0 <= i < |qa| => qa[i].questionIndex)
  }

  const QUESTION_INDEX: QaRecord -> int := (r: QaRecord) => r.questionIndex

  predicate UniqueIndices(qa: seq<QaRecord>) {
    DistinctKeys(qa, QUESTION_INDEX)
  }

  lemma {:induction false} FindRecordFirst(qa: seq<QaRecord>, index: int)
    ensures forall i | 0 <= i < FindRecord(qa, index) :: qa[i].questionIndex != index
  {
    if qa != [] && qa[0].questionIndex != index {
      FindRecordFirst(qa[1..], index);
    }
  }

  lemma ApplyPatchIndices(qa: seq<QaRecord>, patch: QaRecord)
    ensures Indices(qa) <= Indices(ApplyPatch(qa, patch))
    ensures UniqueIndices(qa) ==> UniqueIndices(ApplyPatch(qa, patch))
    ensures forall r | r in ApplyPatch(qa, patch) ::
              r.questionIndex in Indices(qa) || r.questionIndex == patch.questionIndex
  {
    FindRecordFirst(qa, patch.questionIndex);
    assert forall i | 0 <= i < |qa| :: Indices(qa)[i] == qa[i].questionIndex;
  }

  /** Merging keeps the indices of the history, in place, and keeps them unique. */
  lemma {:induction false} HistoryIndicesKept(m: Memory, effects: seq<ToolEffect>)
    ensures Indices(m.qa) <= Indices(ApplyAll(m, effects).qa)
    ensures UniqueIndices(m.qa) ==> UniqueIndices(ApplyAll(m, effects).qa)
  {
    if effects != [] {
      HistoryIndicesKept(m, ButLast(effects));
      if Last(effects).effect.qaPatch.Some? {
        ApplyPatchIndices(ApplyAll(m, ButLast(effects)).qa, Last(effects).effect.qaPatch.value);
      }
    }
  }

  /** A key of the first record with an index. */
  function FieldAt(qa: seq<QaRecord>, index: int, field: string): Option<Value> {
    var k := FindRecord(qa, index);
    if k < |qa| && field in qa[k].fields then Some(qa[k].fields[field]) else None
  }

  /** The value the last effect that patches this key of this record gives it. */
  function LastPatched(effects: seq<ToolEffect>, index: int, field: string): Option<Value> {
    if effects == [] then None
    else
      match Last(effects).effect.qaPatch
      case Some(p) =>
        if p.questionIndex == index && field in p.fields then Some(p.fields[field])
        else LastPatched(ButLast(effects), index, field)
      case None => LastPatched(ButLast(effects), index, field)
  }

  lemma FindRecordIs(qa: seq<QaRecord>, index: int, k: nat)
    requires k <= |qa|
    requires forall i | 0 <= i < k :: qa[i].questionIndex != index
    requires k < |qa| ==> qa[k].questionIndex == index
    ensures FindRecord(qa, index) == k
  {
    FindRecordFirst(qa, index);
  }

  lemma ApplyPatchField(qa: seq<QaRecord>, patch: QaRecord, index: int, field: string)
    ensures FieldAt(ApplyPatch(qa, patch), index, field)
         == if patch.questionIndex == index && field in patch.fields then Some(patch.fields[field])
            else FieldAt(qa, index, field)
  {
    var k, k' := FindRecord(qa, index), FindRecord(qa, patch.questionIndex);
    FindRecordFirst(qa, index);
    FindRecordFirst(qa, patch.questionIndex);
    var after := ApplyPatch(qa, patch);
    if k == |qa| && index != patch.questionIndex {
      FindRecordIs(after, index, |after|);
    } else {
      FindRecordIs(after, index, k);
    }
  }

  /** After a merge each key of a record is what the last patch in call order wrote,
      or what it was before if none did. */
  lemma {:induction false} LastPatchWins(m: Memory, effects: seq<ToolEffect>, index: int, field: string)
    ensures FieldAt(ApplyAll(m, effects).qa, index, field)
         == match LastPatched(effects, index, field)
            case Some(v) => Some(v)
            case None => FieldAt(m.qa, index, field)
  {
    if effects != [] {
      LastPatchWins(m, ButLast(effects), index, field);
      if Last(effects).effect.qaPatch.Some? {
        ApplyPatchField(ApplyAll(m, ButLast(effects)).qa, Last(effects).effect.qaPatch.value, index, field);
      }
    }
  }

  // ------------------------------------------------------------- records elsewhere

  predicate Patches(e: ToolEffect, index: int) {
    e.effect.qaPatch.Some? && e.effect.qaPatch.value.questionIndex == index
  }

  /** A record behind another one with its index. */
  predicate Shadowed(qa: seq<QaRecord>, i: nat)
    requires i < |qa|
  {
    exists j | 0 <= j < i :: qa[j].questionIndex == qa[i].questionIndex
  }

  /** One patch: the first record with its index takes it; if there is none it becomes a
      record behind all others. Every other record stays as it is. */
  lemma ApplyPatchElsewhere(qa: seq<QaRecord>, patch: QaRecord)
    ensures var after := ApplyPatch(qa, patch);
            && (forall i: nat | i < |qa| :: i < |after| && after[i].questionIndex == qa[i].questionIndex)
            && (forall i: nat | i < |qa| && (qa[i].questionIndex != patch.questionIndex || Shadowed(qa, i)) ::
                  after[i] == qa[i])
            && (if exists i :: 0 <= i < |qa| && qa[i].questionIndex == patch.questionIndex
                then |after| == |qa| else after == qa + [patch])
  {
    FindRecordFirst(qa, patch.questionIndex);
  }

  predicate OldKept(qa: seq<QaRecord>, after: seq<QaRecord>, effects: seq<ToolEffect>) {
    && |qa| <= |after|
    && forall i: nat | i < |qa| && (Shadowed(qa, i) || Unpatched(effects, qa[i].questionIndex)) :: after[i] == qa[i]
  }

  predicate NewPatched(qa: seq<QaRecord>, after: seq<QaRecord>, effects: seq<ToolEffect>) {
    forall i: nat | |qa| <= i < |after| :: !Shadowed(after, i) && !Unpatched(effects, after[i].questionIndex)
  }

  predicate Unpatched(effects: seq<ToolEffect>, index: int) {
    forall e | e in effects :: !Patches(e, index)
  }

  /** After a merge every record of the history is in its place, and is as it was if no effect
      patches it or an earlier record has its index. What is new has indices that effects
      patch and no record before it has. */
  lemma {:induction false} RecordsElsewhere(m: Memory, effects: seq<ToolEffect>)
    ensures OldKept(m.qa, ApplyAll(m, effects).qa, effects)
    ensures NewPatched(m.qa, ApplyAll(m, effects).qa, effects)
  {
    if effects != [] {
      var before, e := ButLast(effects), Last(effects);
      assert effects == before + [e];
      hide OldKept, NewPatched, ApplyEffect;
      RecordsElsewhere(m, before);
      HistoryIndicesKept(m, before);
      RecordsStep(m, before, e);
    }
  }

  lemma SameShadow(qa: seq<QaRecord>, after: seq<QaRecord>, i: nat)
    requires i < |qa| <= |after| && Indices(qa) <= Indices(after)
    ensures Shadowed(qa, i) <==> Shadowed(after, i)
  {
    forall j | 0 <= j < |qa| ensures qa[j].questionIndex == after[j].questionIndex {
      SameIndex(qa, after, j);
    }
  }

  lemma RecordsStep(m: Memory, before: seq<ToolEffect>, e: ToolEffect)
    requires Indices(m.qa) <= Indices(ApplyAll(m, before).qa)
    requires OldKept(m.qa, ApplyAll(m, before).qa, before) && NewPatched(m.qa, ApplyAll(m, before).qa, before)
    ensures OldKept(m.qa, ApplyEffect(ApplyAll(m, before), e).qa, before + [e])
    ensures NewPatched(m.qa, ApplyEffect(ApplyAll(m, before), e).qa, before + [e])
  {
    hide Shadowed, Indices, ApplyPatch, AddScores, Unpatched, ApplyAll;
    var qa, after, all := ApplyAll(m, before).qa, ApplyEffect(ApplyAll(m, before), e).qa, before + [e];
    forall index ensures Unpatched(all, index) <==> Unpatched(before, index) && !Patches(e, index) {
      UnpatchedSnoc(before, e, index);
    }
    if e.effect.qaPatch.Some? {
      var patch := e.effect.qaPatch.value;
      ApplyPatchElsewhere(qa, patch);
      ApplyPatchIndices(qa, patch);
      forall i: nat | i < |qa| ensures Shadowed(qa, i) <==> Shadowed(after, i) {
        SameShadow(qa, after, i);
      }
      forall i: nat | i < |m.qa| ensures Shadowed(m.qa, i) <==> Shadowed(qa, i) {
        SameShadow(m.qa, qa, i);
      }
      forall i: nat | i < |m.qa| ensures qa[i].questionIndex == m.qa[i].questionIndex {
        SameIndex(m.qa, qa, i);
      }
      if |after| > |qa| {
        NewRecord(qa, patch);
      }
    }
  }

  lemma UnpatchedSnoc(before: seq<ToolEffect>, e: ToolEffect, index: int)
    ensures Unpatched(before + [e], index) <==> Unpatched(before, index) && !Patches(e, index)
  {
    hide Patches;
    var all := before + [e];
    assert e in all && forall x | x in before :: x in all;
  }

  lemma SameIndex(qa: seq<QaRecord>, after: seq<QaRecord>, i: nat)
    requires i < |qa| <= |after| && Indices(qa) <= Indices(after)
    ensures qa[i].questionIndex == after[i].questionIndex
  {
    assert Indices(qa)[i] == Indices(after)[i];
  }

  lemma NewRecord(qa: seq<QaRecord>, patch: QaRecord)
    requires |ApplyPatch(qa, patch)| > |qa|
    ensures ApplyPatch(qa, patch) == qa + [patch] && !Shadowed(qa + [patch], |qa|)
  {
    FindRecordFirst(qa, patch.questionIndex);
  }

  // ------------------------------------------------- scores, settings and the trace

  /** The scores a delta has for one category, in order. */
  function DeltaFor(delta: seq<(string, seq<int>)>, category: string): seq<int> {
    if delta == [] then [] else (if delta[0].0 == category then delta[0].1 else []) + DeltaFor(delta[1..], category)
  }

  lemma {:induction false} AddScoresFor(scores: map<string, seq<int>>, delta: seq<(string, seq<int>)>, category: string)
    ensures ScoresOf(AddScores(scores, delta), category) == ScoresOf(scores, category) + DeltaFor(delta, category)
    decreases |delta|
  {
    if delta != [] {
      var (c, more) := delta[0];
      AddScoresFor(scores[c := ScoresOf(scores, c) + more], delta[1..], category);
    }
  }

  function ScoresAdded(effects: seq<ToolEffect>, category: string): seq<int> {
    if effects == [] then []
    else ScoresAdded(ButLast(effects), category) + DeltaFor(Last(effects).effect.scoresDelta, category)
  }

  function LastSetting(effects: seq<ToolEffect>, key: Setting): Option<string> {
    if effects == [] then None
    else if key in Last(effects).effect.others then Some(Last(effects).effect.others[key])
    else LastSetting(ButLast(effects), key)
  }

  function Traces(effects: seq<ToolEffect>): seq<TraceEntry> {
    seq(|effects|, i requires 0 <= i < |effects| => effects[i].trace)
  }

  lemma TracesSnoc(effects: seq<ToolEffect>)
    requires effects != []
    ensures Traces(effects) == Traces(ButLast(effects)) + [Last(effects).trace]
  {
  }

  function SettingOf(settings: map<Setting, string>, key: Setting): Option<string> {
    if key in settings then Some(settings[key]) else None
  }

  /** In call order, the scores of each category are appended. */
  lemma {:induction false} MergedScores(m: Memory, effects: seq<ToolEffect>, category: string)
    ensures ScoresOf(ApplyAll(m, effects).scores, category)
         == ScoresOf(m.scores, category) + ScoresAdded(effects, category)
  {
    if effects != [] {
      hide AddScores, ScoresOf;
      MergedScores(m, ButLast(effects), category);
      AddScoresFor(ApplyAll(m, ButLast(effects)).scores, Last(effects).effect.scoresDelta, category);
    }
  }

  /** A setting is what the last effect that writes it says; the trace grows by one entry
      per tool, in call order. */
  lemma {:induction false} MergedSettingsAndTrace(m: Memory, effects: seq<ToolEffect>, key: Setting)
    ensures SettingOf(ApplyAll(m, effects).settings, key)
         == if LastSetting(effects, key).Some? then LastSetting(effects, key) else SettingOf(m.settings, key)
    ensures ApplyAll(m, effects).trace == m.trace + Traces(effects)
  {
    if effects != [] {
      hide AddScores, ApplyPatch;
      MergedSettingsAndTrace(m, ButLast(effects), key);
      TracesSnoc(effects);
    }
  }

  // ----------------------------------------------------------- counting the scores

  /** How many scores there are, over all categories. */
  ghost function TotalScores(scores: map<string, seq<int>>): nat
    decreases |scores|
  {
    if scores == map[] then 0
    else
      var category :| category in scores;
      assert |scores - {category}| < |scores| by { assert (scores - {category}).Keys == scores.Keys - {category}; }
      |scores[category]| + TotalScores(scores - {category})
  }

  lemma {:induction false} TotalWithout(scores: map<string, seq<int>>, category: string)
    requires category in scores
    ensures TotalScores(scores) == |scores[category]| + TotalScores(scores - {category})
    decreases |scores|
  {
    var chosen :| chosen in scores && TotalScores(scores) == |scores[chosen]| + TotalScores(scores - {chosen});
    if chosen != category {
      assert (scores - {chosen}).Keys == scores.Keys - {chosen};
      TotalWithout(scores - {chosen}, category);
      assert (scores - {chosen}) - {category} == (scores - {category}) - {chosen};
      assert (scores - {category}).Keys == scores.Keys - {category};
      TotalWithout(scores - {category}, chosen);
    }
  }

  lemma TotalUpdate(scores: map<string, seq<int>>, category: string, value: seq<int>)
    ensures TotalScores(scores[category := value]) == TotalScores(scores) - |ScoresOf(scores, category)| + |value|
  {
    var after := scores[category := value];
    TotalWithout(after, category);
    if category in scores {
      TotalWithout(scores, category);
      assert after - {category} == scores - {category};
    } else {
      assert after - {category} == scores;
    }
  }

  function DeltaSize(delta: seq<(string, seq<int>)>): nat {
    if delta == [] then 0 else |delta[0].1| + DeltaSize(delta[1..])
  }

  lemma {:induction false} AddScoresTotal(scores: map<string, seq<int>>, delta: seq<(string, seq<int>)>)
    ensures TotalScores(AddScores(scores, delta)) == TotalScores(scores) + DeltaSize(delta)
    decreases |delta|
  {
    if delta != [] {
      var (category, more) := delta[0];
      var now := scores[category := ScoresOf(scores, category) + more];
      TotalUpdate(scores, category, ScoresOf(scores, category) + more);
      AddScoresTotal(now, delta[1..]);
    }
  }

  /** An effect that counts a turn for each score it adds. */
  predicate Accounted(e: ToolEffect) {
    e.effect.turnDelta == DeltaSize(e.effect.scoresDelta)
  }

  function TurnsAdded(effects: seq<ToolEffect>): int {
    if effects == [] then 0 else TurnsAdded(ButLast(effects)) + Last(effects).effect.turnDelta
  }

  lemma {:induction false} AccountsBalance(m: Memory, effects: seq<ToolEffect>)
    requires forall e | e in effects :: Accounted(e)
    ensures ApplyAll(m, effects).turnCount == m.turnCount + TurnsAdded(effects)
    ensures TurnsAdded(effects) >= 0
    ensures TotalScores(ApplyAll(m, effects).scores) - TotalScores(m.scores) == TurnsAdded(effects)
  {
    if effects != [] {
      assert Last(effects) in effects;
      AccountsBalance(m, ButLast(effects));
      AddScoresTotal(ApplyAll(m, ButLast(effects)).scores, Last(effects).effect.scoresDelta);
    }
  }

  // ------------------------------------------------------------- no empty category

  /** Every category has a score, so its average is defined. */
  predicate AllScored(scores: map<string, seq<int>>) {
    forall c | c in scores :: scores[c] != []
  }

  predicate NoEmptyDelta(delta: seq<(string, seq<int>)>) {
    forall i | 0 <= i < |delta| :: delta[i].1 != []
  }

  lemma {:induction false} AddScoresAllScored(scores: map<string, seq<int>>, delta: seq<(string, seq<int>)>)
    requires AllScored(scores) && NoEmptyDelta(delta)
    ensures AllScored(AddScores(scores, delta))
    decreases |delta|
  {
    if delta != [] {
      var (category, more) := delta[0];
      assert delta[0].1 != [];
      AddScoresAllScored(scores[category := ScoresOf(scores, category) + more], delta[1..]);
    }
  }

  lemma {:induction false} AllScoredKept(m: Memory, effects: seq<ToolEffect>)
    requires AllScored(m.scores) && forall e | e in effects :: NoEmptyDelta(e.effect.scoresDelta)
    ensures AllScored(ApplyAll(m, effects).scores)
  {
    if effects != [] {
      hide AllScored, NoEmptyDelta, AddScores;
      assert Last(effects) in effects;
      AllScoredKept(m, ButLast(effects));
      AddScoresAllScored(ApplyAll(m, ButLast(effects)).scores, Last(effects).effect.scoresDelta);
    }
  }
}
