// Sums of a measure over a list, and sizes of sets.
module Sums {
  function Total<T>(f: T -> nat, s: seq<T>): nat {
    if s == [] then 0 else Total(f, s[..|s| - 1]) + f(s[|s| - 1])
  }

  lemma {:induction false} TotalUpdate<T>(f: T -> nat, s: seq<T>, i: nat, x: T)
    requires i < |s|
    ensures Total(f, s[i := x]) == Total(f, s) - f(s[i]) + f(x)
  {
    var n := |s| - 1;
    if i < n {
      assert s[i := x][..n] == s[..n][i := x];
      TotalUpdate(f, s[..n], i, x);
    } else {
      assert s[i := x][..n] == s[..n];
    }
  }

  lemma {:induction false} TotalBound<T>(f: T -> nat, s: seq<T>, b: nat)
    requires forall k :: 0 <= k < |s| ==> f(s[k]) <= b
    ensures Total(f, s) <= |s| * b
  {
    if s == [] {
    } else {
      var n := |s| - 1;
      TotalBound(f, s[..n], b);
      assert |s| * b == n * b + b;
    }
  }

  lemma {:induction false} TotalAdds<T>(f: T -> nat, g: T -> nat, h: T -> nat, s: seq<T>)
    requires forall k :: 0 <= k < |s| ==> f(s[k]) + g(s[k]) <= h(s[k])
    ensures Total(f, s) + Total(g, s) <= Total(h, s)
  {
    if s == [] {
    } else {
      TotalAdds(f, g, h, s[..|s| - 1]);
    }
  }

  lemma {:induction false} SubsetSize<T>(a: set<T>, b: set<T>)
    requires a <= b
    ensures |a| <= |b|
    decreases a
  {
    if a == {} {
    } else {
      var x :| x in a;
      SubsetSize(a - {x}, b - {x});
    }
  }

  function Below(n: nat): set<nat> {
    if n == 0 then {} else Below(n - 1) + {n - 1}
  }

  lemma {:induction false} BelowExact(n: nat)
    ensures |Below(n)| == n && forall k: nat :: k in Below(n) <==> k < n
  {
    if n == 0 {
    } else {
      BelowExact(n - 1);
    }
  }
}
