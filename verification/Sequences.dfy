// Sequences without repetition, and sums.
module Sequences {

  predicate Differ<T(==)>(s: seq<T>, i: nat, j: nat)
    requires i < |s| && j < |s|
  {
    s[i] != s[j]
  }

  predicate Distinct<T(==)>(s: seq<T>) {
    forall i: nat, j: nat {:trigger Differ(s, i, j)} :: i < j < |s| ==> Differ(s, i, j)
  }

  lemma DistinctTail<T>(s: seq<T>)
    requires Distinct(s) && s != []
    ensures Distinct(s[1..]) && s[0] !in s[1..]
  {
    var r := s[1..];
    forall i: nat, j: nat | i < j < |r| ensures Differ(r, i, j) {
      assert Differ(s, i + 1, j + 1);
    }
    forall i: nat | i < |r| ensures r[i] != s[0] {
      assert Differ(s, 0, i + 1);
    }
  }

  lemma DistinctInit<T>(s: seq<T>)
    requires Distinct(s) && s != []
    ensures Distinct(s[..|s| - 1]) && s[|s| - 1] !in s[..|s| - 1]
  {
    var n := |s| - 1;
    var r := s[..n];
    forall i: nat, j: nat | i < j < n ensures Differ(r, i, j) {
      assert Differ(s, i, j);
    }
    forall i: nat | i < n ensures r[i] != s[n] {
      assert Differ(s, i, n);
    }
  }

  lemma DistinctAppend<T>(s: seq<T>, x: T)
    requires Distinct(s) && x !in s
    ensures Distinct(s + [x])
  {
    var r := s + [x];
    forall i: nat, j: nat | i < j < |r| ensures Differ(r, i, j) {
      if j < |s| {
        assert Differ(s, i, j);
      }
    }
  }

  function Sum(xs: seq<nat>): nat {
    if xs == [] then 0 else Sum(xs[..|xs| - 1]) + xs[|xs| - 1]
  }

  // A sum of smaller numbers is smaller, unless they are all the same.
  lemma {:induction false} SumMonotone(xs: seq<nat>, ys: seq<nat>)
    requires |xs| == |ys| && forall i :: 0 <= i < |xs| ==> xs[i] <= ys[i]
    ensures Sum(xs) <= Sum(ys) && (Sum(xs) == Sum(ys) <==> xs == ys)
  {
    if xs != [] {
      var n := |xs| - 1;
      SumMonotone(xs[..n], ys[..n]);
      assert xs == xs[..n] + [xs[n]] && ys == ys[..n] + [ys[n]];
    }
  }

  lemma {:induction false} SumUpdate(xs: seq<nat>, i: nat, x: nat)
    requires i < |xs|
    ensures Sum(xs[i := x]) + xs[i] == Sum(xs) + x
  {
    var n := |xs| - 1;
    if i == n {
      assert xs[i := x][..n] == xs[..n];
    } else {
      assert xs[i := x][..n] == xs[..n][i := x];
      SumUpdate(xs[..n], i, x);
    }
  }

  // A sum is at least each of its numbers, and exactly one of them if the others are 0.
  lemma {:induction false} SumAtLeast(xs: seq<nat>, i: nat)
    requires i < |xs|
    ensures xs[i] <= Sum(xs)
    ensures Sum(xs) == xs[i] <==> forall j :: 0 <= j < |xs| && j != i ==> xs[j] == 0
  {
    SumUpdate(xs, i, 0);
    var ys := xs[i := 0];
    SumIsZero(ys);
    assert forall j :: 0 <= j < |xs| && j != i ==> ys[j] == xs[j];
  }

  lemma {:induction false} SumIsZero(xs: seq<nat>)
    ensures Sum(xs) == 0 <==> forall j :: 0 <= j < |xs| ==> xs[j] == 0
  {
    if xs != [] {
      var n := |xs| - 1;
      SumIsZero(xs[..n]);
      assert forall j :: 0 <= j < n ==> xs[..n][j] == xs[j];
    }
  }
}
