/** Totals over sequences, and what replacing one element does to them. */
module Sums {

  function AddUp(s: seq<int>): int {
    if s == [] then 0 else AddUp(s[..|s| - 1]) + s[|s| - 1]
  }

  lemma {:induction false} AddUpUpdate(s: seq<int>, i: nat, x: int)
    requires i < |s|
    ensures AddUp(s[i := x]) == AddUp(s) - s[i] + x
  {
    if i == |s| - 1 {
      assert s[i := x][..i] == s[..i];
    } else {
      assert s[i := x][..|s| - 1] == s[..|s| - 1][i := x];
      AddUpUpdate(s[..|s| - 1], i, x);
    }
  }

  lemma {:induction false} AddUpNonNegative(s: seq<int>)
    requires forall i :: 0 <= i < |s| ==> s[i] >= 0
    ensures AddUp(s) >= 0
  {
    if s != [] {
      AddUpNonNegative(s[..|s| - 1]);
    }
  }

  /** `n` pairs of `a` and `b`. */
  lemma {:induction false} AddUpPairs(s: seq<int>, n: nat, a: int, b: int)
    requires |s| == 2 * n
    requires forall i :: 0 <= i < |s| ==> s[i] == if i % 2 == 0 then a else b
    ensures AddUp(s) == n * (a + b)
  {
    if n > 0 {
      AddUpPairs(s[..|s| - 2], n - 1, a, b);
      assert s[..|s| - 1][..|s| - 2] == s[..|s| - 2];
      assert AddUp(s[..|s| - 1]) == AddUp(s[..|s| - 2]) + a;
      OneMore(n, a + b);
    }
  }

  ghost function Gather<T>(s: seq<multiset<T>>): multiset<T> {
    if s == [] then multiset{} else Gather(s[..|s| - 1]) + s[|s| - 1]
  }

  lemma {:induction false} GatherUpdate<T>(s: seq<multiset<T>>, i: nat, x: multiset<T>, y: T)
    requires i < |s|
    ensures Gather(s[i := x])[y] + s[i][y] == Gather(s)[y] + x[y]
  {
    if i == |s| - 1 {
      assert s[i := x][..i] == s[..i];
    } else {
      assert s[i := x][..|s| - 1] == s[..|s| - 1][i := x];
      GatherUpdate(s[..|s| - 1], i, x, y);
    }
  }

  lemma GatherNothingMore<T>(s: seq<multiset<T>>)
    ensures Gather(s + [multiset{}]) == Gather(s)
  {
    assert (s + [multiset{}])[..|s|] == s;
  }

  lemma {:induction false} GatherNothing<T>(s: seq<multiset<T>>)
    requires forall i :: 0 <= i < |s| ==> s[i] == multiset{}
    ensures Gather(s) == multiset{}
  {
    if s != [] {
      GatherNothing(s[..|s| - 1]);
    }
  }

  lemma GatherTwo<T>(s: seq<multiset<T>>, x: T)
    requires |s| >= 2
    ensures Gather(s)[x] == Gather(s[..|s| - 2])[x] + s[|s| - 2][x] + s[|s| - 1][x]
  {
    assert s[..|s| - 1][..|s| - 2] == s[..|s| - 2];
  }

  lemma OneMore(n: nat, x: int)
    requires n > 0
    ensures n * x == (n - 1) * x + x
  {
  }

  /** `a` and `b` take turns. */
  ghost predicate Alternate<T>(s: seq<T>, a: T, b: T) {
    forall i :: 0 <= i < |s| ==> s[i] == if i % 2 == 0 then a else b
  }

  lemma LastTwo<T>(s: seq<T>, n: nat, a: T, b: T)
    requires |s| == 2 * n && n > 0 && Alternate(s, a, b)
    ensures s[|s| - 2] == a && s[|s| - 1] == b && Alternate(s[..|s| - 2], a, b)
  {
  }

  lemma {:induction false} GatherPairs<T>(s: seq<multiset<T>>, n: nat, a: multiset<T>, b: multiset<T>, x: T)
    requires |s| == 2 * n && Alternate(s, a, b)
    ensures Gather(s)[x] == n * (a[x] + b[x])
  {
    if n > 0 {
      LastTwo(s, n, a, b);
      GatherPairs(s[..|s| - 2], n - 1, a, b, x);
      GatherTwo(s, x);
      OneMore(n, a[x] + b[x]);
    }
  }
}
