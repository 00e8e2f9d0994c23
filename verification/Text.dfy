/** Sequences and character strings, with the operations that the repository's
    TypeScript and Python both lean on: splitting into lines, joining, searching
    and trimming. */
module Text {

  datatype Option<+T> = None | Some(value: T)

  // ---------------------------------------------------------------- flattening

  function Flatten<T>(parts: seq<seq<T>>): seq<T> {
    if parts == [] then [] else parts[0] + Flatten(parts[1..])
  }

  lemma {:induction false} FlattenAppend<T>(a: seq<seq<T>>, b: seq<seq<T>>)
    ensures Flatten(a + b) == Flatten(a) + Flatten(b)
  {
    if a == [] {
      assert a + b == b;
    } else {
      assert (a + b)[1..] == a[1..] + b;
      FlattenAppend(a[1..], b);
    }
  }

  lemma FlattenCons<T>(x: seq<T>, rest: seq<seq<T>>)
    ensures Flatten([x] + rest) == x + Flatten(rest)
  {
    assert ([x] + rest)[1..] == rest;
  }

  lemma FlattenSnoc<T>(a: seq<seq<T>>, x: seq<T>)
    ensures Flatten(a + [x]) == Flatten(a) + x
  {
    FlattenAppend(a, [x]);
    assert Flatten([x]) == x;
  }

  function Last<T>(s: seq<T>): T
    requires s != []
  {
    s[|s| - 1]
  }

  function ButLast<T>(s: seq<T>): seq<T>
    requires s != []
  {
    s[..|s| - 1]
  }

  function Each<T, U>(xs: seq<T>, f: T -> U): seq<U> {
    seq(|xs|, i requires 0 <= i < |xs| => f(xs[i]))
  }

  /** All elements but the one at `p`. */
  function Without<T>(s: seq<T>, p: nat): seq<T>
    requires p < |s|
  {
    s[..p] + s[p + 1..]
  }

  lemma MultisetWithout<T>(s: seq<T>, p: nat)
    requires p < |s|
    ensures multiset(s) == multiset(Without(s, p)) + multiset{s[p]}
    ensures multiset(Without(s, p)) == multiset(s) - multiset{s[p]}
  {
    assert s == s[..p] + [s[p]] + s[p + 1..];
  }

  /** The elements at the given positions, in that order. */
  function Pick<T>(xs: seq<T>, order: seq<nat>): seq<T>
    requires forall i | 0 <= i < |order| :: order[i] < |xs|
  {
    seq(|order|, i requires 0 <= i < |order| => xs[order[i]])
  }

  predicate DistinctKeys<T, K(==)>(xs: seq<T>, key: T -> K) {
    forall i, j | 0 <= i < j < |xs| :: key(xs[i]) != key(xs[j])
  }

  // ---------------------------------------------------------- splitting, joining

  function Join(parts: seq<string>, joiner: string): string {
    if parts == [] then ""
    else if |parts| == 1 then parts[0]
    else parts[0] + joiner + Join(parts[1..], joiner)
  }

  /** The lines of a text that has the character `c` in front of `lines`. */
  function Prepend(c: char, lines: seq<string>): seq<string>
    requires lines != []
  {
    if c == '\n' then [""] + lines else [[c] + lines[0]] + lines[1..]
  }

  lemma PrependAppend(c: char, a: seq<string>, b: seq<string>)
    requires a != []
    ensures Prepend(c, a + b) == Prepend(c, a) + b
  {
    assert (a + b)[1..] == a[1..] + b;
  }

  /** `s.split('\n')`: the pieces between line feeds, the last one included. */
  function Lines(s: string): (r: seq<string>)
    ensures r != []
  {
    if s == "" then [""] else Prepend(s[0], Lines(s[1..]))
  }

  /** The pieces have no line feed and joining them gives the text back. */
  lemma {:induction false} LinesSplit(s: string)
    ensures forall i | 0 <= i < |Lines(s)| :: '\n' !in Lines(s)[i]
    ensures Join(Lines(s), "\n") == s
  {
    if s != "" {
      LinesSplit(s[1..]);
      var rest := Lines(s[1..]);
      if s[0] == '\n' {
        assert Lines(s)[1..] == rest;
      } else {
        assert Lines(s)[1..] == rest[1..];
      }
    }
  }

  /** Cutting a text at a line feed cuts its list of lines. */
  lemma {:induction false} LinesCut(a: string, b: string)
    ensures Lines(a + "\n" + b) == Lines(a) + Lines(b)
  {
    if a == "" {
      assert a + "\n" + b == "\n" + b;
      assert ("\n" + b)[1..] == b;
    } else {
      var s := a + "\n" + b;
      assert s[0] == a[0] && s[1..] == a[1..] + "\n" + b;
      LinesCut(a[1..], b);
      PrependAppend(a[0], Lines(a[1..]), Lines(b));
    }
  }

  lemma {:induction false} LinesOfOne(s: string)
    requires '\n' !in s
    ensures Lines(s) == [s]
  {
    if s != "" {
      LinesOfOne(s[1..]);
      assert [s[0]] + s[1..] == s;
    }
  }

  /** Cutting a text anywhere: every line but the open last one is final. */
  lemma {:induction false} LinesResume(a: string, b: string)
    ensures Lines(a + b) == ButLast(Lines(a)) + Lines(Last(Lines(a)) + b)
  {
    if a == "" {
      assert a + b == b;
    } else {
      assert (a + b)[0] == a[0] && (a + b)[1..] == a[1..] + b;
      LinesResume(a[1..], b);
      PrependResume(a[0], Lines(a[1..]), b);
    }
  }

  lemma PrependResume(c: char, lines: seq<string>, b: string)
    requires lines != []
    ensures Prepend(c, ButLast(lines) + Lines(Last(lines) + b))
         == ButLast(Prepend(c, lines)) + Lines(Last(Prepend(c, lines)) + b)
  {
    if |lines| > 1 || c == '\n' {
      assert Last(Prepend(c, lines)) == Last(lines);
      if |lines| > 1 {
        assert ButLast(Prepend(c, lines)) == Prepend(c, ButLast(lines));
        PrependAppend(c, ButLast(lines), Lines(Last(lines) + b));
      }
    } else {
      var t := [c] + lines[0] + b;
      assert t[0] == c && t[1..] == lines[0] + b;
      assert ButLast(lines) == [];
    }
  }

  lemma {:induction false} LinesKeepChars(s: string, p: char -> bool)
    requires forall i | 0 <= i < |s| :: p(s[i])
    ensures forall i, j | 0 <= i < |Lines(s)| && 0 <= j < |Lines(s)[i]| :: p(Lines(s)[i][j])
  {
    if s != "" {
      LinesKeepChars(s[1..], p);
    }
  }

  // ------------------------------------------------------------------ searching

  predicate OccursAt(s: string, pat: string, j: int) {
    0 <= j <= |s| - |pat| && s[j..j + |pat|] == pat
  }

  /** `s.indexOf(pat)`: the first occurrence, or -1. */
  function IndexOf(s: string, pat: string): (r: int)
    ensures -1 <= r <= |s| && (r != -1 ==> r + |pat| <= |s|)
  {
    if |s| < |pat| then -1
    else if s[..|pat|] == pat then 0
    else if s == "" then -1
    else
      var k := IndexOf(s[1..], pat);
      if k == -1 then -1 else k + 1
  }

  lemma {:induction false} IndexOfFirst(s: string, pat: string)
    ensures var r := IndexOf(s, pat);
            && (r == -1 || OccursAt(s, pat, r))
            && (forall j | OccursAt(s, pat, j) :: 0 <= r <= j)
  {
    if |s| >= |pat| && s[..|pat|] != pat && s != "" {
      IndexOfFirst(s[1..], pat);
      var k := IndexOf(s[1..], pat);
      hide IndexOf;
      forall j | OccursAt(s, pat, j) ensures j > 0 && OccursAt(s[1..], pat, j - 1) {
        OccursBehind(s, pat, j - 1);
      }
      if k != -1 {
        OccursBehind(s, pat, k);
      }
    }
  }

  lemma OccursBehind(s: string, pat: string, j: int)
    requires s != "" && j >= -1
    ensures j >= 0 ==> (OccursAt(s[1..], pat, j) <==> OccursAt(s, pat, j + 1))
  {
    if 0 <= j <= |s| - 1 - |pat| {
      assert s[1..][j..j + |pat|] == s[j + 1..j + 1 + |pat|];
    }
  }

  lemma FoundIff(s: string, pat: string)
    ensures IndexOf(s, pat) != -1 <==> exists a, b :: s == a + pat + b
  {
    IndexOfFirst(s, pat);
    hide IndexOf;
    var k := IndexOf(s, pat);
    if k != -1 {
      assert s == s[..k] + pat + s[k + |pat|..];
    }
    if exists a, b :: s == a + pat + b {
      var a, b :| s == a + pat + b;
      assert s[|a|..|a| + |pat|] == pat;
      assert OccursAt(s, pat, |a|);
    }
  }

  // ------------------------------------------------------------------- trimming

  function TrimLeft(s: string, space: char -> bool): string {
    if s != "" && space(s[0]) then TrimLeft(s[1..], space) else s
  }

  function TrimRight(s: string, space: char -> bool): string {
    if s != "" && space(s[|s| - 1]) then TrimRight(s[..|s| - 1], space) else s
  }

  /** `trim()` in TypeScript and `strip()` in Python, for their own notion of white space. */
  function Trim(s: string, space: char -> bool): string {
    TrimRight(TrimLeft(s, space), space)
  }

  predicate Trimmed(s: string, space: char -> bool) {
    s == "" || (!space(s[0]) && !space(s[|s| - 1]))
  }

  lemma {:induction false} TrimLeftEdge(s: string, space: char -> bool)
    ensures var r := TrimLeft(s, space); r == "" || !space(r[0])
  {
    if s != "" && space(s[0]) {
      TrimLeftEdge(s[1..], space);
    }
  }

  lemma {:induction false} TrimRightEdge(s: string, space: char -> bool)
    ensures var r := TrimRight(s, space);
            r <= s && (r == "" || !space(r[|r| - 1]))
  {
    if s != "" && space(s[|s| - 1]) {
      TrimRightEdge(s[..|s| - 1], space);
    }
  }

  /** Trimming leaves a trimmed string, and leaves a trimmed string alone. */
  lemma TrimIdempotent(s: string, space: char -> bool)
    ensures Trimmed(Trim(s, space), space)
    ensures Trim(Trim(s, space), space) == Trim(s, space)
  {
    TrimLeftEdge(s, space);
    TrimRightEdge(TrimLeft(s, space), space);
  }

  lemma {:induction false} TrimLeftBlank(s: string, space: char -> bool)
    requires TrimLeft(s, space) == ""
    ensures forall i | 0 <= i < |s| :: space(s[i])
  {
    if s != "" {
      TrimLeftBlank(s[1..], space);
    }
  }

  lemma {:induction false} TrimRightBlank(s: string, space: char -> bool)
    requires TrimRight(s, space) == ""
    ensures forall i | 0 <= i < |s| :: space(s[i])
  {
    if s != "" {
      TrimRightBlank(s[..|s| - 1], space);
    }
  }

  /** Only a string of nothing but white space trims to nothing. */
  lemma TrimBlank(s: string, space: char -> bool)
    requires Trim(s, space) == ""
    ensures forall i | 0 <= i < |s| :: space(s[i])
  {
    var t := TrimLeft(s, space);
    TrimLeftEdge(s, space);
    TrimRightBlank(t, space);
    TrimLeftBlank(s, space);
  }

  lemma {:induction false} TrimLeftIs(s: string, space: char -> bool) returns (k: nat)
    ensures k <= |s| && TrimLeft(s, space) == s[k..] && forall i | 0 <= i < k :: space(s[i])
  {
    if s != "" && space(s[0]) {
      k := TrimLeftIs(s[1..], space);
      assert forall i | 0 < i <= k :: s[i] == s[1..][i - 1];
      k := k + 1;
    } else {
      k := 0;
    }
  }

  lemma {:induction false} TrimRightIs(s: string, space: char -> bool) returns (k: nat)
    ensures k <= |s| && TrimRight(s, space) == s[..k] && forall i | k <= i < |s| :: space(s[i])
  {
    if s != "" && space(s[|s| - 1]) {
      k := TrimRightIs(s[..|s| - 1], space);
      assert forall i | k <= i < |s| - 1 :: s[i] == s[..|s| - 1][i];
    } else {
      k := |s|;
    }
  }

  /** Trimming takes off white space at both ends, and all of it. */
  lemma TrimIs(s: string, space: char -> bool) returns (left: string, right: string)
    ensures s == left + Trim(s, space) + right
    ensures (forall c | c in left :: space(c)) && (forall c | c in right :: space(c))
    ensures Trimmed(Trim(s, space), space)
  {
    var k := TrimLeftIs(s, space);
    var t := TrimLeft(s, space);
    var j := TrimRightIs(t, space);
    left, right := s[..k], t[j..];
    TrimIdempotent(s, space);
  }
}
