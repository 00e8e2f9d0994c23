/** `_merge_tool_results` with its dictionaries as objects: what is copied, what is
    updated in place, and what the caller's records keep. */
module AgentMerge {
  import opened Text
  import opened AgentMemory

  /** A record dictionary. */
  class QaDict {
    const questionIndex: int
    var fields: map<string, Value>

    constructor (record: QaRecord)
      ensures Record() == record
    {
      questionIndex, fields := record.questionIndex, record.fields;
    }

    function Record(): QaRecord
      reads this
    {
      QaRecord(questionIndex, fields)
    }

    /** `record.update(...)` with every key of the patch but the index. */
    method Update(patch: QaRecord)
      modifies this
      ensures fields == old(fields) + patch.fields
    {
      fields := fields + patch.fields;
    }
  }

  ghost predicate Distinct(dicts: seq<QaDict>) {
    forall i, j | 0 <= i < j < |dicts| :: dicts[i] != dicts[j]
  }

  function Records(dicts: seq<QaDict>): seq<QaRecord>
    reads dicts
  {
    seq(|dicts|, i requires 0 <= i < |dicts| reads dicts => dicts[i].Record())
  }

  /** An accumulated tool effect; `patch` is the dictionary behind `effect.qaPatch`. */
  datatype ToolItem = ToolItem(effect: ToolEffect, patch: Option<QaDict>)

  function Effects(items: seq<ToolItem>): seq<ToolEffect> {
    seq(|items|, i requires 0 <= i < |items| => items[i].effect)
  }

  const ITEM_INDEX: ToolItem -> nat := (item: ToolItem) => item.effect.index

  lemma {:induction false} InsertEffects(items: seq<ToolItem>, item: ToolItem)
    ensures Effects(InsertBy(items, item, ITEM_INDEX)) == InsertBy(Effects(items), item.effect, BY_INDEX)
  {
    if items == [] || ITEM_INDEX(Last(items)) <= ITEM_INDEX(item) {
    } else {
      InsertEffects(ButLast(items), item);
      assert ButLast(Effects(items)) == Effects(ButLast(items));
    }
  }

  /** Sorting the items sorts the effects they carry. */
  lemma {:induction false} SortEffects(items: seq<ToolItem>)
    ensures Effects(SortBy(items, ITEM_INDEX)) == SortBy(Effects(items), BY_INDEX)
  {
    if items != [] {
      SortEffects(ButLast(items));
      assert ButLast(Effects(items)) == Effects(ButLast(items));
      InsertEffects(SortBy(ButLast(items), ITEM_INDEX), Last(items));
    }
  }

  /** The dictionaries of the items, which the merge may adopt into the history. */
  ghost function PatchDicts(items: seq<ToolItem>): set<QaDict> {
    set item | item in items && item.patch.Some? :: item.patch.value
  }

  /** Each item's dictionary holds its patch, and no two items share one. */
  ghost predicate Consistent(items: seq<ToolItem>)
    reads PatchDicts(items)
  {
    && (forall item | item in items ::
          match item.patch
          case Some(d) => item.effect.effect.qaPatch == Some(d.Record())
          case None => item.effect.effect.qaPatch.None?)
    && NoSharing(multiset(items))
  }

  ghost predicate NoSharing(items: multiset<ToolItem>) {
    && (forall x, y | x in items && y in items && x.patch.Some? && x.patch == y.patch :: x == y)
    && (forall x | x in items && x.patch.Some? :: items[x] == 1)
  }

  /** No earlier item has brought in the dictionary of item `i`. */
  lemma NotYetAdopted(items: seq<ToolItem>, i: nat)
    requires NoSharing(multiset(items)) && i < |items| && items[i].patch.Some?
    ensures items[i].patch.value !in PatchDicts(items[..i])
    ensures items[i].patch.value in PatchDicts(items)
  {
    forall j | 0 <= j < i ensures items[j].patch != items[i].patch {
      if items[j].patch == items[i].patch {
        assert items[j] in multiset(items) && items[i] in multiset(items);
        TwiceInMultiset(items, j, i);
        assert false;
      }
    }
  }

  lemma PrefixDicts(items: seq<ToolItem>, i: nat)
    requires i < |items|
    ensures PatchDicts(items[..i]) <= PatchDicts(items[..i + 1]) <= PatchDicts(items)
    ensures items[i].patch.Some? ==> items[i].patch.value in PatchDicts(items[..i + 1])
  {
    assert items[..i + 1] == items[..i] + [items[i]];
  }

  /** Sorting keeps the dictionaries. */
  lemma SortedDicts(items: seq<ToolItem>)
    ensures var sorted := SortBy(items, ITEM_INDEX);
            && multiset(sorted) == multiset(items)
            && PatchDicts(sorted) == PatchDicts(items)
            && forall x | x in sorted :: x in items
  {
    hide SortBy;
    var sorted := SortBy(items, ITEM_INDEX);
    SortByCorrect(items, ITEM_INDEX);
    SameMembers(sorted, items);
  }

  lemma SameMembers(sorted: seq<ToolItem>, items: seq<ToolItem>)
    requires multiset(sorted) == multiset(items)
    ensures PatchDicts(sorted) == PatchDicts(items)
    ensures forall x | x in sorted :: x in items
  {
    forall x ensures x in sorted <==> x in items {
      assert x in sorted <==> x in multiset(sorted);
      assert x in items <==> x in multiset(items);
    }
  }

  /** `next((q for q in merged_qa if ...), None)`: the position, or the length. */
  method FindDict(dicts: seq<QaDict>, index: int) returns (k: nat)
    ensures k == FindRecord(Records(dicts), index)
  {
    k := 0;
    while k < |dicts|
      invariant k <= |dicts|
      invariant forall i | 0 <= i < k :: Records(dicts)[i].questionIndex != index
    {
      if dicts[k].questionIndex == index {
        FindRecordIs(Records(dicts), index, k);
        return;
      }
      k := k + 1;
    }
    FindRecordIs(Records(dicts), index, k);
  }

  /** Fresh copies: `[dict(q) for q in ...]`. */
  method CopyDicts(dicts: seq<QaDict>) returns (copies: seq<QaDict>)
    ensures forall d | d in copies :: fresh(d)
    ensures Distinct(copies) && Records(copies) == Records(dicts)
  {
    copies := [];
    for i := 0 to |dicts|
      invariant |copies| == i
      invariant forall d | d in copies :: fresh(d)
      invariant Distinct(copies)
      invariant forall k | 0 <= k < i :: copies[k].Record() == dicts[k].Record()
    {
      var copy := new QaDict(dicts[i].Record());
      copies := copies + [copy];
    }
  }

  /** One patch: the first record with its index is updated in place, or the patch
      dictionary itself becomes a record. */
  method ApplyPatchInPlace(merged: seq<QaDict>, patch: QaDict) returns (merged': seq<QaDict>)
    requires Distinct(merged) && patch !in merged
    modifies merged
    ensures Records(merged') == ApplyPatch(old(Records(merged)), old(patch.Record()))
    ensures Distinct(merged')
    ensures merged' == merged || merged' == merged + [patch]
  {
    ghost var before := Records(merged);
    var k := FindDict(merged, patch.questionIndex);
    if k < |merged| {
      merged[k].Update(patch.Record());
      merged' := merged;
      assert Records(merged) == before[k := before[k].(fields := before[k].fields + patch.fields)];
    } else {
      merged' := merged + [patch];
      assert Records(merged') == before + [patch.Record()];
    }
  }

  /** `merged_scores.setdefault(cat, []).extend(scores)` for every category of a delta. */
  method ExtendScores(scores: map<string, seq<int>>, delta: seq<(string, seq<int>)>)
      returns (merged: map<string, seq<int>>)
    ensures merged == AddScores(scores, delta)
  {
    merged := scores;
    for i := 0 to |delta|
      invariant AddScores(merged, delta[i..]) == AddScores(scores, delta)
    {
      var (category, more) := delta[i];
      ghost var before := merged;
      if category !in merged {
        merged := merged[category := []];
      }
      merged := merged[category := merged[category] + more];
      assert merged == before[category := ScoresOf(before, category) + more];
      assert delta[i..][0] == delta[i] && delta[i..][1..] == delta[i + 1..];
    }
  }

  /** The body of the merge loop, for one item. */
  method ApplyItem(
      qa: seq<QaDict>, scores: map<string, seq<int>>, turnCount: int,
      settings: map<Setting, string>, trace: seq<TraceEntry>, item: ToolItem)
    returns (qa': seq<QaDict>, scores': map<string, seq<int>>, turnCount': int,
             settings': map<Setting, string>, trace': seq<TraceEntry>)
    requires Distinct(qa)
    requires match item.patch
             case Some(d) => d !in qa && item.effect.effect.qaPatch == Some(d.Record())
             case None => item.effect.effect.qaPatch.None?
    modifies qa
    ensures Memory(Records(qa'), scores', turnCount', settings', trace')
         == ApplyEffect(Memory(old(Records(qa)), scores, turnCount, settings, trace), item.effect)
    ensures Distinct(qa') && qa <= qa'
    ensures forall d | d in qa' :: d in qa || item.patch == Some(d)
  {
    hide ApplyPatch, AddScores;
    trace' := trace + [item.effect.trace];
    qa' := qa;
    if item.patch.Some? {
      qa' := ApplyPatchInPlace(qa, item.patch.value);
    }
    scores' := ExtendScores(scores, item.effect.effect.scoresDelta);
    turnCount' := turnCount + item.effect.effect.turnDelta;
    settings' := settings + item.effect.effect.others;
  }

  method MergeToolResults(
      qaHistory: seq<QaDict>, scores: map<string, seq<int>>, turnCount: int,
      settings: map<Setting, string>, trace: seq<TraceEntry>, items: seq<ToolItem>)
    returns (qa: seq<QaDict>, scores': map<string, seq<int>>, turnCount': int,
             settings': map<Setting, string>, trace': seq<TraceEntry>)
    requires Consistent(items)
    requires forall d | d in qaHistory :: d !in PatchDicts(items)
    modifies PatchDicts(items)
    ensures Memory(Records(qa), scores', turnCount', settings', trace')
         == MergeEffects(Memory(old(Records(qaHistory)), scores, turnCount, settings, trace), Effects(items))
    ensures Records(qaHistory) == old(Records(qaHistory))
    ensures forall d | d in PatchDicts(items) && d !in qa :: d.fields == old(d.fields)
    ensures forall d | d in qa :: fresh(d) || d in PatchDicts(items)
  {
    hide SortBy, ApplyEffect, NoSharing;
    ghost var start := Memory(Records(qaHistory), scores, turnCount, settings, trace);
    var sorted := SortBy(items, ITEM_INDEX);
    SortEffects(items);
    SortedDicts(items);
    ghost var effects := Effects(sorted);
    qa := CopyDicts(qaHistory);
    scores', turnCount', settings', trace' := scores, turnCount, settings, trace;
    for i := 0 to |sorted|
      invariant Distinct(qa)
      invariant forall d | d in qa :: fresh(d) || d in PatchDicts(sorted[..i])
      invariant PatchDicts(sorted[..i]) <= PatchDicts(items)
      invariant forall d | d in PatchDicts(items) && d !in qa :: d.fields == old(d.fields)
      invariant Memory(Records(qa), scores', turnCount', settings', trace') == ApplyAll(start, effects[..i])
      invariant Records(qaHistory) == old(Records(qaHistory))
    {
      var item := sorted[i];
      StepFacts(sorted, effects, i);
      PrefixDicts(sorted, i);
      assert item in items;
      if item.patch.Some? {
        NotYetAdopted(sorted, i);
      }
      qa, scores', turnCount', settings', trace' := ApplyItem(qa, scores', turnCount', settings', trace', item);
    }
    assert effects[..|sorted|] == effects;
    assert sorted[..|sorted|] == sorted;
  }

  lemma StepFacts(sorted: seq<ToolItem>, effects: seq<ToolEffect>, i: nat)
    requires i < |sorted| && effects == Effects(sorted)
    ensures effects[..i + 1] != [] && ButLast(effects[..i + 1]) == effects[..i]
        && Last(effects[..i + 1]) == sorted[i].effect
  {
  }
}
