// Lists without repeats.
module Uniques {
  function Mapped<S, T>(f: S -> T, vs: seq<S>): (r: seq<T>)
    ensures |r| == |vs| && forall i :: 0 <= i < |vs| ==> r[i] == f(vs[i])
  {
    seq(|vs|, i requires 0 <= i < |vs| => f(vs[i]))
  }

  // The first occurrence of every non-blank value, in order.
  function FirstOccurrences<T(==)>(values: seq<T>, blank: T): seq<T> {
    if values == [] then []
    else
      var n := |values| - 1;
      if values[n] == blank || values[n] in values[..n] then FirstOccurrences(values[..n], blank)
      else FirstOccurrences(values[..n], blank) + [values[n]]
  }

  ghost predicate Distinct<T>(s: seq<T>) {
    forall i, j :: 0 <= i < j < |s| ==> s[i] != s[j]
  }

  // FirstOccurrences has each non-blank value of the list once, and nothing else.
  lemma {:induction false} FirstOccurrencesExact<T(!new)>(values: seq<T>, blank: T)
    ensures Distinct(FirstOccurrences(values, blank))
    ensures forall v :: v in FirstOccurrences(values, blank) <==> v in values && v != blank
    ensures |FirstOccurrences(values, blank)| <= |values|
  {
    if values == [] {
    } else {
      var n := |values| - 1;
      FirstOccurrencesExact(values[..n], blank);
      assert values == values[..n] + [values[n]];
    }
  }

  lemma FirstOccurrencesLast<T>(values: seq<T>, y: T, blank: T)
    ensures FirstOccurrences(values + [y], blank) ==
            FirstOccurrences(values, blank) + if y == blank || y in values then [] else [y]
  {
    assert (values + [y])[..|values|] == values;
  }

  lemma {:induction false} NothingFirst<T>(values: seq<T>, blank: T)
    requires forall i :: 0 <= i < |values| ==> values[i] == blank
    ensures FirstOccurrences(values, blank) == []
  {
    if values == [] {
    } else {
      NothingFirst(values[..|values| - 1], blank);
    }
  }

  // It keeps the order of first appearance.
  lemma {:induction false} FirstOccurrencesOrder<T(!new)>(values: seq<T>, blank: T, i: nat, j: nat)
    requires i < j < |FirstOccurrences(values, blank)|
    ensures exists a, b :: 0 <= a < b < |values| && values[a] == FirstOccurrences(values, blank)[i]
              && values[b] == FirstOccurrences(values, blank)[j] && FirstOccurrences(values, blank)[j] !in values[..b]
  {
    var n := |values| - 1;
    var rest := FirstOccurrences(values[..n], blank);
    if j < |rest| {
      FirstOccurrencesOrder(values[..n], blank, i, j);
      var a, b :| 0 <= a < b < n && values[..n][a] == rest[i] && values[..n][b] == rest[j]
                  && rest[j] !in values[..n][..b];
      assert values[..n][..b] == values[..b];
      assert values[a] == rest[i] && values[b] == rest[j];
    } else {
      FirstOccurrencesExact(values[..n], blank);
      var v := rest[i];
      assert v in FirstOccurrences(values[..n], blank);
      assert v in values[..n];
      var a :| 0 <= a < n && values[..n][a] == v;
      assert values[a] == rest[i];
    }
  }

  // The values not in `seen`, in order.
  function Unseen<T(==)>(values: seq<T>, seen: set<T>): seq<T> {
    if values == [] then []
    else
      var n := |values| - 1;
      if values[n] in seen then Unseen(values[..n], seen) else Unseen(values[..n], seen) + [values[n]]
  }

  lemma {:induction false} UnseenExact<T(!new)>(values: seq<T>, seen: set<T>)
    ensures forall v :: v in Unseen(values, seen) <==> v in values && v !in seen
    ensures Distinct(values) ==> Distinct(Unseen(values, seen))
  {
    if values == [] {
    } else {
      var n := |values| - 1;
      UnseenExact(values[..n], seen);
      assert values == values[..n] + [values[n]];
    }
  }

  lemma UnseenLast<T>(values: seq<T>, y: T, seen: set<T>)
    ensures Unseen(values + [y], seen) == Unseen(values, seen) + if y in seen then [] else [y]
  {
    assert (values + [y])[..|values|] == values;
  }

  // What is kept of a list is what is kept of its two parts: the order stays.
  lemma {:induction false} UnseenOrder<T>(values: seq<T>, seen: set<T>, cut: nat)
    requires cut <= |values|
    ensures Unseen(values, seen) == Unseen(values[..cut], seen) + Unseen(values[cut..], seen)
    decreases |values|
  {
    if cut == |values| {
      assert values[..cut] == values && values[cut..] == [];
    } else {
      var n := |values| - 1;
      UnseenOrder(values[..n], seen, cut);
      assert values[..n][..cut] == values[..cut];
      assert values[cut..][..n - cut] == values[..n][cut..];
      assert values[cut..][n - cut] == values[n];
    }
  }

  // The new values of a list: those not blank and not seen, each once.
  function Fresh<T(==)>(values: seq<T>, blank: T, seen: set<T>): seq<T> {
    Unseen(FirstOccurrences(values, blank), seen)
  }

  lemma FreshLast<T>(values: seq<T>, y: T, blank: T, seen: set<T>)
    ensures Fresh(values + [y], blank, seen) ==
            Fresh(values, blank, seen) + if y == blank || y in values || y in seen then [] else [y]
  {
    assert (values + [y])[..|values|] == values;
    var kept := FirstOccurrences(values, blank);
    assert (kept + [y])[..|kept|] == kept;
  }

  lemma {:induction false} FirstOccurrencesIdempotent<T>(values: seq<T>, blank: T)
    requires Distinct(values) && blank !in values
    ensures FirstOccurrences(values, blank) == values
  {
    if values == [] {
    } else {
      var n := |values| - 1;
      FirstOccurrencesIdempotent(values[..n], blank);
      assert values == values[..n] + [values[n]];
    }
  }
}
