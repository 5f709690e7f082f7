// Cardinality of subsets and unions.
module Sets {
  import opened Sequences

  lemma {:induction false} SubsetCardinality<T>(small: set<T>, large: set<T>)
    requires small <= large
    ensures |small| <= |large| && (|small| == |large| ==> small == large)
  {
    if x :| x in small {
      SubsetCardinality(small - {x}, large - {x});
    }
  }

  function Union<T>(ss: seq<set<T>>): set<T> {
    if ss == [] then {} else Union(ss[..|ss| - 1]) + ss[|ss| - 1]
  }

  function Sizes<T>(ss: seq<set<T>>): (ns: seq<nat>)
    ensures |ns| == |ss| && forall i :: 0 <= i < |ss| ==> ns[i] == |ss[i]|
  {
    seq(|ss|, i requires 0 <= i < |ss| => |ss[i]|)
  }

  ghost predicate Disjoint<T>(ss: seq<set<T>>) {
    forall i, j :: 0 <= i < j < |ss| ==> ss[i] !! ss[j]
  }

  lemma {:induction false} InUnion<T>(ss: seq<set<T>>, x: T)
    ensures x in Union(ss) <==> exists i :: 0 <= i < |ss| && x in ss[i]
  {
    if ss != [] {
      var n := |ss| - 1;
      InUnion(ss[..n], x);
      assert forall i :: 0 <= i < n ==> ss[..n][i] == ss[i];
    }
  }

  // A union is as large as its parts together exactly if they are disjoint.
  lemma {:induction false} UnionSize<T>(ss: seq<set<T>>)
    ensures |Union(ss)| <= Sum(Sizes(ss))
    ensures |Union(ss)| == Sum(Sizes(ss)) <==> Disjoint(ss)
  {
    if ss != [] {
      var n := |ss| - 1;
      var init, last := ss[..n], ss[n];
      UnionSize(init);
      assert Sizes(ss)[..n] == Sizes(init);
      var both := Union(init) * last;
      assert |Union(ss)| + |both| == |Union(init)| + |last| by {
        assert Union(ss) == Union(init) + last;
      }
      LastDisjoint(ss);
      assert |both| == 0 <==> both == {};
    }
  }

  lemma LastDisjoint<T>(ss: seq<set<T>>)
    requires ss != []
    ensures Disjoint(ss) <==> Disjoint(ss[..|ss| - 1]) && Union(ss[..|ss| - 1]) * ss[|ss| - 1] == {}
  {
    var n := |ss| - 1;
    var init, last := ss[..n], ss[n];
    if Disjoint(ss) {
      forall x | x in Union(init) ensures x !in last {
        InUnion(init, x);
      }
    }
    if Disjoint(init) && Union(init) * last == {} {
      forall i, j | 0 <= i < j < |ss| ensures ss[i] !! ss[j] {
        if j < n {
          assert init[i] !! init[j];
        } else {
          forall x | x in ss[i] ensures x !in last {
            assert x in init[i];
            InUnion(init, x);
            assert x !in Union(init) * last;
          }
        }
      }
    }
  }

  // Subsets are together smaller, unless each is the whole.
  lemma SubsetSizes<T>(small: seq<set<T>>, large: seq<set<T>>)
    requires |small| == |large| && forall i :: 0 <= i < |small| ==> small[i] <= large[i]
    ensures Sum(Sizes(small)) <= Sum(Sizes(large))
    ensures Sum(Sizes(small)) == Sum(Sizes(large)) <==> small == large
  {
    forall i | 0 <= i < |small| ensures |small[i]| <= |large[i]| && (|small[i]| == |large[i]| ==> small[i] == large[i]) {
      SubsetCardinality(small[i], large[i]);
    }
    SumMonotone(Sizes(small), Sizes(large));
    if Sizes(small) == Sizes(large) {
      forall i | 0 <= i < |small| ensures small[i] == large[i] {
        assert Sizes(small)[i] == Sizes(large)[i];
      }
    }
  }
}
