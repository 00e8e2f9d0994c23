/** Cleaning the lists of the summary (`backend/app/graphs/evaluation.py`, `_sanitize_items`). */
module EvaluationSummary {
  import opened Text
  import opened FirstOccurrences

  /** What `str.strip` removes. */
  predicate PySpace(c: char) {
    var n := c as int;
    || 9 <= n <= 13 || 0x1C <= n <= 0x20 || n == 0x85 || n == 0xA0 || n == 0x1680
    || 0x2000 <= n <= 0x200A || n == 0x2028 || n == 0x2029
    || n == 0x202F || n == 0x205F || n == 0x3000
  }

  function Strip(s: string): string {
    Trim(s, PySpace)
  }

  const MAX_MERGED_LIST_ITEMS := 8

  /** The stripped items that are not blank. */
  function Cleaned(items: seq<string>): seq<string> {
    if items == [] then []
    else Cleaned(ButLast(items)) + if Strip(Last(items)) == "" then [] else [Strip(Last(items))]
  }

  const ITSELF: string -> string := (s: string) => s

  function Cap(items: seq<string>): seq<string> {
    if |items| <= MAX_MERGED_LIST_ITEMS then items else items[..MAX_MERGED_LIST_ITEMS]
  }

  function Sanitized(primary: seq<string>, fallback: seq<string>): seq<string> {
    Cap(FirstByKey(Cleaned(if primary != [] then primary else fallback), ITSELF))
  }

  lemma EmptyStripped()
    ensures Strip("") == ""
  {
  }

  /** `_sanitize_items`. */
  method SanitizeItems(primary: seq<string>, fallback: seq<string>) returns (result: seq<string>)
    ensures result == Sanitized(primary, fallback)
  {
    hide Trim, Strip;
    var source := if primary != [] then primary else fallback;
    var seen: set<string> := {};
    result := [];
    for i := 0 to |source|
      invariant seen == Keys(Cleaned(source[..i]), ITSELF)
      invariant result == FirstByKey(Cleaned(source[..i]), ITSELF)
    {
      var item := source[i];
      ghost var before := Cleaned(source[..i]);
      assert ButLast(source[..i + 1]) == source[..i] && Last(source[..i + 1]) == item;
      EmptyStripped();
      assert before + [] == before;
      assert Cleaned(source[..i + 1]) == before + if Strip(item) == "" then [] else [Strip(item)];
      if item == "" || Strip(item) == "" {
        continue;
      }
      var cleaned := Strip(item);
      KeysAppend(before, cleaned, ITSELF);
      assert ButLast(before + [cleaned]) == before && Last(before + [cleaned]) == cleaned;
      if cleaned !in seen {
        seen := seen + {cleaned};
        result := result + [cleaned];
      }
    }
    assert source[..|source|] == source;
    hide FirstByKey, Cleaned;
    result := Cap(result);
  }

  predicate Clean(items: seq<string>) {
    forall i | 0 <= i < |items| :: items[i] != "" && Trimmed(items[i], PySpace)
  }

  lemma {:induction false} CleanedIsClean(items: seq<string>)
    ensures Clean(Cleaned(items))
  {
    if items != [] {
      CleanedIsClean(ButLast(items));
      TrimIdempotent(Last(items), PySpace);
    }
  }

  lemma CleanSnoc(items: seq<string>)
    requires items != [] && Clean(items)
    ensures items == ButLast(items) + [Last(items)]
    ensures Clean(ButLast(items)) && Last(items) != "" && Trimmed(Last(items), PySpace)
  {
  }

  lemma {:induction false} CleanStays(items: seq<string>)
    requires Clean(items)
    ensures Cleaned(items) == items
  {
    if items != [] {
      hide Clean, Strip, Trimmed;
      CleanSnoc(items);
      CleanStays(ButLast(items));
      TrimmedStays(Last(items));
    }
  }

  lemma TrimmedStays(s: string)
    requires Trimmed(s, PySpace)
    ensures Strip(s) == s
  {
  }

  /** The result has at most eight items, all stripped, none blank, none twice. */
  lemma SanitizedIsClean(primary: seq<string>, fallback: seq<string>)
    ensures var r := Sanitized(primary, fallback);
            && |r| <= MAX_MERGED_LIST_ITEMS && Clean(r) && DistinctKeys(r, ITSELF)
            && forall x | x in r :: x in Cleaned(if primary != [] then primary else fallback)
  {
    var cleaned := Cleaned(if primary != [] then primary else fallback);
    CleanedIsClean(if primary != [] then primary else fallback);
    FirstByKeyKeys(cleaned, ITSELF);
    var all, r := FirstByKey(cleaned, ITSELF), Sanitized(primary, fallback);
    forall i | 0 <= i < |r| ensures r[i] in cleaned && r[i] != "" && Trimmed(r[i], PySpace) {
      assert r[i] == all[i] && all[i] in all;
    }
    forall i, j | 0 <= i < j < |r| ensures ITSELF(r[i]) != ITSELF(r[j]) {
      assert r[i] == all[i] && r[j] == all[j];
    }
  }

  /** Some item is not blank. */
  predicate HasText(items: seq<string>) {
    exists i | 0 <= i < |items| :: Strip(items[i]) != ""
  }

  lemma {:induction false} CleanedEmptyIff(items: seq<string>)
    ensures Cleaned(items) == [] <==> !HasText(items)
  {
    if items != [] {
      hide Strip;
      CleanedEmptyIff(ButLast(items));
      assert forall i | 0 <= i < |items| - 1 :: ButLast(items)[i] == items[i];
      assert Last(items) == items[|items| - 1];
    }
  }

  lemma NothingLeftIff(primary: seq<string>, fallback: seq<string>)
    ensures Sanitized(primary, fallback) == [] <==> !HasText(if primary != [] then primary else fallback)
  {
    hide HasText;
    var cleaned := Cleaned(if primary != [] then primary else fallback);
    CleanedEmptyIff(if primary != [] then primary else fallback);
    FirstByKeyKeys(cleaned, ITSELF);
    if cleaned != [] {
      assert ITSELF(cleaned[0]) in Keys(cleaned, ITSELF);
    }
  }

  /** Sanitising twice is sanitising once exactly if the list chosen first has an item that
      is not blank, or the other list of the second pass has none. */
  lemma SanitizedIdempotentIff(primary: seq<string>, fallback: seq<string>, other: seq<string>)
    ensures var r := Sanitized(primary, fallback);
            Sanitized(r, other) == r <==> HasText(if primary != [] then primary else fallback) || !HasText(other)
  {
    hide HasText;
    var r := Sanitized(primary, fallback);
    NothingLeftIff(primary, fallback);
    NothingLeftIff([], other);
    if r != [] {
      SanitizedIsClean(primary, fallback);
      CleanStays(r);
      FirstByKeyIdentity(r, ITSELF);
    }
  }

  // ---------------------------------------------------------------- which items are left

  lemma StripIs(s: string) returns (left: string, right: string)
    ensures s == left + Strip(s) + right && Trimmed(Strip(s), PySpace)
    ensures (forall c | c in left :: PySpace(c)) && (forall c | c in right :: PySpace(c))
  {
    left, right := TrimIs(s, PySpace);
  }

  /** The positions of the items that are not blank and say what no item before them does. */
  predicate FirstTexts(source: seq<string>, positions: seq<nat>) {
    && AllBelow(positions, |source|)
    && (forall a, b | 0 <= a < b < |positions| :: positions[a] < positions[b])
    && (forall i | 0 <= i < |source| :: i in positions <==> IsFirstText(source, i))
  }

  predicate IsFirstText(source: seq<string>, i: nat)
    requires i < |source|
  {
    Strip(source[i]) != "" && forall j | 0 <= j < i :: Strip(source[j]) != Strip(source[i])
  }

  function StrippedAt(source: seq<string>, positions: seq<nat>): seq<string>
    requires AllBelow(positions, |source|)
  {
    seq(|positions|, k requires 0 <= k < |positions| => Strip(source[positions[k]]))
  }

  predicate Says(items: seq<string>, text: string) {
    exists j | 0 <= j < |items| :: Strip(items[j]) == text
  }

  lemma SaysSnoc(items: seq<string>, text: string)
    requires items != []
    ensures Says(items, text) <==> Says(ButLast(items), text) || Strip(Last(items)) == text
  {
    hide Strip;
    assert forall j | 0 <= j < |items| - 1 :: ButLast(items)[j] == items[j];
    assert items[|items| - 1] == Last(items);
  }

  lemma {:induction false} CleanedHas(items: seq<string>, text: string)
    requires text != ""
    ensures text in Keys(Cleaned(items), ITSELF) <==> Says(items, text)
  {
    if items != [] {
      hide Strip, Says, Keys;
      var before, item := ButLast(items), Last(items);
      CleanedHas(before, text);
      SaysSnoc(items, text);
      KeysAppend(Cleaned(before), Strip(item), ITSELF);
      assert Cleaned(before) + [] == Cleaned(before);
    } else {
      assert !Says(items, text);
    }
  }

  lemma SameFirst(source: seq<string>, i: nat)
    requires i < |source| - 1
    ensures IsFirstText(source, i) <==> IsFirstText(ButLast(source), i)
  {
    hide Strip;
    assert forall j | 0 <= j <= i :: ButLast(source)[j] == source[j];
  }

  lemma FirstTextsSnoc(source: seq<string>, earlier: seq<nat>)
    requires source != [] && FirstTexts(ButLast(source), earlier)
    ensures FirstTexts(source, if IsFirstText(source, |source| - 1) then earlier + [|source| - 1] else earlier)
    ensures AllBelow(earlier, |source| - 1)
  {
    hide IsFirstText;
    var n := |source| - 1;
    forall i | 0 <= i < n ensures i in earlier <==> IsFirstText(source, i) {
      SameFirst(source, i);
    }
    assert n !in earlier;
  }

  lemma StrippedSnoc(source: seq<string>, earlier: seq<nat>)
    requires source != [] && AllBelow(earlier, |source| - 1)
    ensures StrippedAt(source, earlier) == StrippedAt(ButLast(source), earlier)
    ensures StrippedAt(source, earlier + [|source| - 1]) == StrippedAt(source, earlier) + [Strip(Last(source))]
  {
    hide Strip;
  }

  lemma {:induction false} TextsPicked(source: seq<string>) returns (positions: seq<nat>)
    ensures FirstTexts(source, positions) && FirstByKey(Cleaned(source), ITSELF) == StrippedAt(source, positions)
  {
    if source == [] {
      positions := [];
    } else {
      hide Strip, Keys, StrippedAt, FirstTexts;
      var before, item := ButLast(source), Last(source);
      var earlier := TextsPicked(before);
      FirstTextsSnoc(source, earlier);
      StrippedSnoc(source, earlier);
      FirstSays(source);
      var first := IsFirstText(source, |source| - 1);
      hide IsFirstText, Says;
      positions := if first then earlier + [|source| - 1] else earlier;
      var cleaned := Cleaned(before);
      assert cleaned + [] == cleaned;
      if Strip(item) != "" {
        CleanedHas(before, Strip(item));
        FirstByKeySnoc(cleaned, Strip(item));
      }
    }
  }

  lemma FirstSays(source: seq<string>)
    requires source != []
    ensures IsFirstText(source, |source| - 1)
       <==> Strip(Last(source)) != "" && !Says(ButLast(source), Strip(Last(source)))
  {
    hide Strip;
    assert forall j | 0 <= j < |source| - 1 :: ButLast(source)[j] == source[j];
  }

  lemma FirstByKeySnoc(xs: seq<string>, x: string)
    ensures FirstByKey(xs + [x], ITSELF)
         == FirstByKey(xs, ITSELF) + if x in Keys(xs, ITSELF) then [] else [x]
  {
    assert ButLast(xs + [x]) == xs && Last(xs + [x]) == x;
  }

  /** The result: the items of the chosen list that are not blank and new, stripped, in order,
      and of them the first eight. */
  lemma SanitizedIs(primary: seq<string>, fallback: seq<string>) returns (positions: seq<nat>)
    ensures var source, r := if primary != [] then primary else fallback, Sanitized(primary, fallback);
            && FirstTexts(source, positions)
            && |r| == (if |positions| < 8 then |positions| else 8)
            && forall k | 0 <= k < |r| :: r[k] == Strip(source[positions[k]])
  {
    hide Strip, FirstTexts;
    positions := TextsPicked(if primary != [] then primary else fallback);
  }
}
