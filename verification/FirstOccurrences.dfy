/** Order-preserving removal of duplicates, as done with a `seen` set. */
module FirstOccurrences {
  import opened Text

  function Keys<T, K>(xs: seq<T>, key: T -> K): set<K> {
    set i | 0 <= i < |xs| :: key(xs[i])
  }

  /** The elements whose key no earlier element has. */
  function FirstByKey<T, K(==)>(xs: seq<T>, key: T -> K): seq<T> {
    if xs == [] then []
    else FirstByKey(ButLast(xs), key) + if key(Last(xs)) in Keys(ButLast(xs), key) then [] else [Last(xs)]
  }

  lemma KeysSnoc<T, K>(xs: seq<T>, key: T -> K)
    requires xs != []
    ensures Keys(xs, key) == Keys(ButLast(xs), key) + {key(Last(xs))}
  {
    forall k | k in Keys(xs, key) ensures k in Keys(ButLast(xs), key) + {key(Last(xs))} {
      var i :| 0 <= i < |xs| && key(xs[i]) == k;
      if i < |xs| - 1 { assert ButLast(xs)[i] == xs[i]; }
    }
    forall k | k in Keys(ButLast(xs), key) ensures k in Keys(xs, key) {
      var i :| 0 <= i < |ButLast(xs)| && key(ButLast(xs)[i]) == k;
      assert xs[i] == ButLast(xs)[i];
    }
    assert xs[|xs| - 1] == Last(xs);
  }

  lemma KeysAppend<T, K>(xs: seq<T>, x: T, key: T -> K)
    ensures Keys(xs + [x], key) == Keys(xs, key) + {key(x)}
  {
    KeysSnoc(xs + [x], key);
    assert ButLast(xs + [x]) == xs;
  }

  /** Every key survives, none twice. */
  lemma {:induction false} FirstByKeyKeys<T, K>(xs: seq<T>, key: T -> K)
    ensures Keys(FirstByKey(xs, key), key) == Keys(xs, key)
    ensures DistinctKeys(FirstByKey(xs, key), key)
    ensures forall x | x in FirstByKey(xs, key) :: x in xs
  {
    if xs != [] {
      var rest := FirstByKey(ButLast(xs), key);
      FirstByKeyKeys(ButLast(xs), key);
      KeysSnoc(xs, key);
      KeysAppend(rest, Last(xs), key);
      assert rest + [] == rest;
      if key(Last(xs)) !in Keys(ButLast(xs), key) {
        forall i | 0 <= i < |rest| ensures key(rest[i]) != key(Last(xs)) {
          assert key(rest[i]) in Keys(rest, key);
        }
      }
    }
  }

  lemma LastKeyNew<T, K>(xs: seq<T>, key: T -> K)
    requires xs != [] && DistinctKeys(xs, key)
    ensures key(Last(xs)) !in Keys(ButLast(xs), key)
    ensures DistinctKeys(ButLast(xs), key)
    ensures xs == ButLast(xs) + [Last(xs)]
  {
    forall i | 0 <= i < |ButLast(xs)| ensures key(ButLast(xs)[i]) != key(Last(xs)) {
      assert xs[i] == ButLast(xs)[i];
    }
  }

  /** What is already free of duplicates stays as it is. */
  lemma {:induction false} FirstByKeyIdentity<T, K>(xs: seq<T>, key: T -> K)
    requires DistinctKeys(xs, key)
    ensures FirstByKey(xs, key) == xs
  {
    if xs != [] {
      hide Keys, DistinctKeys;
      LastKeyNew(xs, key);
      FirstByKeyIdentity(ButLast(xs), key);
    }
  }

  /** No earlier element has the key of this one. */
  predicate IsFirst<T, K(==)>(xs: seq<T>, i: nat, key: T -> K)
    requires i < |xs|
  {
    forall j | 0 <= j < i :: key(xs[j]) != key(xs[i])
  }

  predicate AllBelow(positions: seq<nat>, n: nat) {
    forall a | 0 <= a < |positions| :: positions[a] < n
  }

  /** The positions, in increasing order, at which a key occurs for the first time. */
  predicate FirstPositions<T, K(==)>(xs: seq<T>, positions: seq<nat>, key: T -> K) {
    && AllBelow(positions, |xs|)
    && (forall a, b | 0 <= a < b < |positions| :: positions[a] < positions[b])
    && (forall i | 0 <= i < |xs| :: i in positions <==> IsFirst(xs, i, key))
  }

  lemma IsFirstInPrefix<T, K>(xs: seq<T>, i: nat, n: nat, key: T -> K)
    requires i < n <= |xs|
    ensures IsFirst(xs[..n], i, key) <==> IsFirst(xs, i, key)
  {
    assert forall j | 0 <= j <= i :: xs[..n][j] == xs[j];
  }

  lemma LastIsFirst<T, K>(xs: seq<T>, key: T -> K)
    requires xs != []
    ensures key(Last(xs)) in Keys(ButLast(xs), key) <==> !IsFirst(xs, |xs| - 1, key)
  {
    assert forall j | 0 <= j < |ButLast(xs)| :: ButLast(xs)[j] == xs[j];
  }

  lemma FirstPositionsStep<T, K>(xs: seq<T>, before: seq<nat>, key: T -> K)
    requires xs != [] && FirstPositions(ButLast(xs), before, key)
    ensures FirstPositions(xs, if IsFirst(xs, |xs| - 1, key) then before + [|xs| - 1] else before, key)
  {
    var n := |xs| - 1;
    forall i | 0 <= i < n ensures i in before <==> IsFirst(xs, i, key) {
      IsFirstInPrefix(xs, i, n, key);
    }
    assert n !in before;
  }

  lemma PickStep<T>(xs: seq<T>, before: seq<nat>)
    requires xs != [] && AllBelow(before, |xs| - 1)
    ensures Pick(xs, before) == Pick(ButLast(xs), before)
    ensures Pick(xs, before + [|xs| - 1]) == Pick(ButLast(xs), before) + [Last(xs)]
  {
  }

  /** What is kept is, in its old order, exactly the elements at which a key occurs for
      the first time. */
  lemma {:induction false} FirstByKeyPicks<T, K>(xs: seq<T>, key: T -> K) returns (positions: seq<nat>)
    ensures FirstPositions(xs, positions, key)
    ensures FirstByKey(xs, key) == Pick(xs, positions)
  {
    if xs == [] {
      positions := [];
    } else {
      hide Keys, IsFirst;
      var before := FirstByKeyPicks(ButLast(xs), key);
      FirstPositionsStep(xs, before, key);
      LastIsFirst(xs, key);
      PickStep(xs, before);
      positions := if IsFirst(xs, |xs| - 1, key) then before + [|xs| - 1] else before;
    }
  }
}
