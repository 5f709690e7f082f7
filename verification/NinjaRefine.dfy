// The shares do not depend on where time is cut: one more cut, anywhere, changes no share. And
// all shares together are the busy time.
module NinjaRefine {
  import opened NinjaTarget
  import opened Sequences
  import opened NinjaSweepSpec
  import opened NinjaSweep

  // Every start and every end is a cut.
  ghost predicate CutAtEnds(entries: seq<Target>, cuts: seq<real>) {
    forall t :: t in entries ==> t.start in cuts && t.end in cuts
  }

  function InsertCut(cuts: seq<real>, p: nat, c: real): seq<real>
    requires p <= |cuts|
  {
    cuts[..p] + [c] + cuts[p..]
  }

  // No step starts or ends strictly inside a piece.
  lemma NoEndInside(entries: seq<Target>, cuts: seq<real>, p: nat, t: Target, x: real)
    requires Ascending(cuts) && 0 < p < |cuts| && CutAtEnds(entries, cuts) && t in entries
    requires x == t.start || x == t.end
    ensures x <= cuts[p - 1] || cuts[p] <= x
  {
    var i :| 0 <= i < |cuts| && cuts[i] == x;
    assert i <= p - 1 ==> cuts[i] <= cuts[p - 1];
    assert p <= i ==> cuts[p] <= cuts[i];
  }

  // So all parts of a piece are covered by the same steps.
  lemma SameCovering(entries: seq<Target>, cuts: seq<real>, p: nat, a: real, b: real)
    requires Ascending(cuts) && 0 < p < |cuts| && CutAtEnds(entries, cuts)
    requires cuts[p - 1] <= a < b <= cuts[p]
    ensures forall t :: t in entries ==> (Covers(t, a, b) <==> Covers(t, cuts[p - 1], cuts[p]))
    ensures Covering(entries, a, b) == Covering(entries, cuts[p - 1], cuts[p])
  {
    forall t | t in entries
      ensures Covers(t, a, b) <==> Covers(t, cuts[p - 1], cuts[p])
    {
      NoEndInside(entries, cuts, p, t, t.start);
      NoEndInside(entries, cuts, p, t, t.end);
    }
  }

  // The two parts of a piece are charged what the piece was charged.
  lemma ChargeSplits(entries: seq<Target>, cuts: seq<real>, p: nat, c: real, t: Target, x: real, y: real, z: real)
    requires Ascending(cuts) && 0 < p < |cuts| && CutAtEnds(entries, cuts) && t in entries
    requires cuts[p - 1] <= c <= cuts[p]
    requires FairAt(entries, cuts[p - 1], c, x) && FairAt(entries, c, cuts[p], y)
    requires FairAt(entries, cuts[p - 1], cuts[p], z)
    ensures (if Covers(t, cuts[p - 1], c) then x else 0.0) + (if Covers(t, c, cuts[p]) then y else 0.0)
         == if Covers(t, cuts[p - 1], cuts[p]) then z else 0.0
  {
    var a, b := cuts[p - 1], cuts[p];
    if a < c < b {
      SameCovering(entries, cuts, p, a, c);
      SameCovering(entries, cuts, p, c, b);
      if Covers(t, a, b) {
        var n := |Covering(entries, a, b)|;
        assert t in Covering(entries, a, b);
        RepeatAdd(n, x, y);
        RepeatIsInjective(n, x + y, z);
      }
    } else if c == a && a < b {
      SamePiece(entries, a, b, y, z);
    } else if c == b && a < b {
      SamePiece(entries, a, b, x, z);
    }
  }

  lemma SamePiece(entries: seq<Target>, a: real, b: real, x: real, y: real)
    requires a < b && FairAt(entries, a, b, x) && FairAt(entries, a, b, y)
    ensures x == y
  {
    if Covering(entries, a, b) != {} {
      RepeatIsInjective(|Covering(entries, a, b)|, x, y);
    }
  }

  lemma {:induction false} ShareBeforeCut(entries: seq<Target>, cuts: seq<real>, charges: seq<real>,
                                          cuts': seq<real>, charges': seq<real>, p: nat, t: Target, k: nat)
    requires Fair(entries, cuts, charges) && Fair(entries, cuts', charges')
    requires k <= p <= |cuts| && p <= |cuts'| && cuts[..p] == cuts'[..p]
    ensures ShareUpTo(cuts', charges', t, k) == ShareUpTo(cuts, charges, t, k)
  {
    if k > 0 {
      ShareBeforeCut(entries, cuts, charges, cuts', charges', p, t, k - 1);
      assert cuts[..p][k - 1] == cuts'[..p][k - 1];
      var a, b := Prev(cuts, k - 1), cuts[k - 1];
      assert Prev(cuts', k - 1) == a && cuts'[k - 1] == b by {
        if k > 1 {
          assert cuts[..p][k - 2] == cuts'[..p][k - 2];
        }
      }
      if a < b {
        SamePiece(entries, a, b, charges[k - 1], charges'[k - 1]);
      } else {
        assert FairAt(entries, a, b, charges[k - 1]) && FairAt(entries, a, b, charges'[k - 1]);
      }
    }
  }

  lemma {:induction false} ShareAfterCut(entries: seq<Target>, cuts: seq<real>, charges: seq<real>,
                                         cuts': seq<real>, charges': seq<real>, p: nat, c: real, t: Target, k: nat)
    requires Ascending(cuts) && CutAtEnds(entries, cuts) && t in entries
    requires 0 < p < k <= |cuts| && cuts[p - 1] <= c <= cuts[p]
    requires cuts' == InsertCut(cuts, p, c)
    requires Fair(entries, cuts, charges) && Fair(entries, cuts', charges')
    ensures ShareUpTo(cuts', charges', t, k + 1) == ShareUpTo(cuts, charges, t, k)
  {
    if k == p + 1 {
      ShareBeforeCut(entries, cuts, charges, cuts', charges', p, t, p);
      ChargeSplits(entries, cuts, p, c, t, charges'[p], charges'[p + 1], charges[p]);
      TwoPieces(cuts', charges', t, p);
    } else {
      ShareAfterCut(entries, cuts, charges, cuts', charges', p, c, t, k - 1);
      var a, b := cuts[k - 2], cuts[k - 1];
      assert cuts'[k - 1] == a && cuts'[k] == b;
      if a < b {
        SamePiece(entries, a, b, charges[k - 1], charges'[k]);
      } else {
        assert FairAt(entries, a, b, charges[k - 1]) && FairAt(entries, a, b, charges'[k]);
      }
    }
  }

  lemma TwoPieces(cuts: seq<real>, charges: seq<real>, t: Target, p: nat)
    requires 0 < p && p + 2 <= |cuts| == |charges|
    ensures ShareUpTo(cuts, charges, t, p + 2)
         == ShareUpTo(cuts, charges, t, p)
            + (if Covers(t, cuts[p - 1], cuts[p]) then charges[p] else 0.0)
            + (if Covers(t, cuts[p], cuts[p + 1]) then charges[p + 1] else 0.0)
  {
    assert ShareUpTo(cuts, charges, t, p + 1)
        == ShareUpTo(cuts, charges, t, p) + if Covers(t, cuts[p - 1], cuts[p]) then charges[p] else 0.0;
  }

  // A piece without length costs nothing.
  lemma EmptyPiece(entries: seq<Target>, cuts: seq<real>, charges: seq<real>, k: nat)
    requires k < |cuts| && Fair(entries, cuts, charges) && Prev(cuts, k) == cuts[k]
    ensures charges[k] == 0.0
  {
    assert FairAt(entries, Prev(cuts, k), cuts[k], charges[k]);
  }

  // Every step lies between the first and the last cut.
  lemma WithinCuts(entries: seq<Target>, cuts: seq<real>, t: Target)
    requires Ascending(cuts) && CutAtEnds(entries, cuts) && t in entries
    ensures cuts != [] && cuts[0] <= t.start && t.end <= cuts[|cuts| - 1]
  {
    var i :| 0 <= i < |cuts| && cuts[i] == t.start;
    var j :| 0 <= j < |cuts| && cuts[j] == t.end;
  }

  // A cut before the first one.
  lemma {:induction false} ShareAfterFirst(entries: seq<Target>, cuts: seq<real>, charges: seq<real>,
                                           cuts': seq<real>, charges': seq<real>, c: real, t: Target, k: nat)
    requires Ascending(cuts) && CutAtEnds(entries, cuts) && t in entries
    requires 0 < k <= |cuts| && c <= cuts[0] && cuts' == [c] + cuts
    requires Fair(entries, cuts, charges) && Fair(entries, cuts', charges')
    ensures ShareUpTo(cuts', charges', t, k + 1) == ShareUpTo(cuts, charges, t, k)
  {
    if k == 1 {
      WithinCuts(entries, cuts, t);
      EmptyPiece(entries, cuts, charges, 0);
      EmptyPiece(entries, cuts', charges', 0);
      if c == cuts[0] {
        EmptyPiece(entries, cuts', charges', 1);
      }
      assert ShareUpTo(cuts', charges', t, 1) == 0.0;
    } else {
      ShareAfterFirst(entries, cuts, charges, cuts', charges', c, t, k - 1);
      var a, b := cuts[k - 2], cuts[k - 1];
      assert cuts'[k - 1] == a && cuts'[k] == b;
      if a < b {
        SamePiece(entries, a, b, charges[k - 1], charges'[k]);
      } else {
        EmptyPiece(entries, cuts, charges, k - 1);
        EmptyPiece(entries, cuts', charges', k);
      }
    }
  }

  // A cut after the last one.
  lemma ShareBeforeLast(entries: seq<Target>, cuts: seq<real>, charges: seq<real>,
                        cuts': seq<real>, charges': seq<real>, c: real, t: Target)
    requires Ascending(cuts) && CutAtEnds(entries, cuts) && t in entries
    requires cuts != [] && cuts[|cuts| - 1] <= c && cuts' == cuts + [c]
    requires Fair(entries, cuts, charges) && Fair(entries, cuts', charges')
    ensures ShareUpTo(cuts', charges', t, |cuts'|) == ShareUpTo(cuts, charges, t, |cuts|)
  {
    var n := |cuts|;
    assert cuts[..n] == cuts'[..n];
    ShareBeforeCut(entries, cuts, charges, cuts', charges', n, t, n);
    WithinCuts(entries, cuts, t);
    if c == cuts[n - 1] {
      EmptyPiece(entries, cuts', charges', n);
    }
  }

  // The share is an integral: cutting time once more, anywhere, leaves every share as it is.
  lemma ExtraCutKeepsShare(entries: seq<Target>, cuts: seq<real>, charges: seq<real>,
                           cuts': seq<real>, charges': seq<real>, p: nat, c: real, t: Target)
    requires Ascending(cuts) && CutAtEnds(entries, cuts) && t in entries
    requires p <= |cuts| && (p > 0 ==> cuts[p - 1] <= c) && (p < |cuts| ==> c <= cuts[p])
    requires cuts' == InsertCut(cuts, p, c)
    requires Fair(entries, cuts, charges) && Fair(entries, cuts', charges')
    ensures ShareUpTo(cuts', charges', t, |cuts'|) == ShareUpTo(cuts, charges, t, |cuts|)
  {
    WithinCuts(entries, cuts, t);
    if p == 0 {
      assert cuts' == [c] + cuts;
      ShareAfterFirst(entries, cuts, charges, cuts', charges', c, t, |cuts|);
    } else if p == |cuts| {
      assert cuts' == cuts + [c];
      ShareBeforeLast(entries, cuts, charges, cuts', charges', c, t);
    } else {
      ShareAfterCut(entries, cuts, charges, cuts', charges', p, c, t, |cuts|);
    }
  }

  // ---------------------------------------------------------------- all shares together

  ghost function SumShares(entries: seq<Target>, cuts: seq<real>, charges: seq<real>, k: nat): real
    requires k <= |cuts| == |charges|
  {
    if entries == [] then 0.0
    else ShareUpTo(cuts, charges, entries[0], k) + SumShares(entries[1..], cuts, charges, k)
  }

  lemma {:induction false} SumSharesStep(entries: seq<Target>, cuts: seq<real>, charges: seq<real>, k: nat, s: set<Target>)
    requires 0 < k <= |cuts| == |charges|
    requires forall t :: t in entries ==> (t in s <==> Covers(t, Prev(cuts, k - 1), cuts[k - 1]))
    ensures SumShares(entries, cuts, charges, k)
         == SumShares(entries, cuts, charges, k - 1) + Repeat(CountIn(entries, s), charges[k - 1])
  {
    if entries != [] {
      SumSharesStep(entries[1..], cuts, charges, k, s);
    }
  }

  lemma {:induction false} SumSharesNone(entries: seq<Target>, cuts: seq<real>, charges: seq<real>)
    requires |cuts| == |charges|
    ensures SumShares(entries, cuts, charges, 0) == 0.0
  {
    if entries != [] {
      SumSharesNone(entries[1..], cuts, charges);
    }
  }

  // The shares of all steps add up to the time in which something ran.
  lemma {:induction false} SharesSumToBusy(entries: seq<Target>, cuts: seq<real>, charges: seq<real>, k: nat)
    requires Distinct(entries) && Ascending(cuts) && k <= |cuts| && Fair(entries, cuts, charges)
    ensures SumShares(entries, cuts, charges, k) == Busy(entries, cuts, k)
  {
    if k == 0 {
      SumSharesNone(entries, cuts, charges);
    } else {
      SharesSumToBusy(entries, cuts, charges, k - 1);
      var a, b := Prev(cuts, k - 1), cuts[k - 1];
      var running := Covering(entries, a, b);
      SumSharesStep(entries, cuts, charges, k, running);
      CountInIsCardinality(entries, running);
      assert FairAt(entries, a, b, charges[k - 1]);
      RepeatZero(|running|);
    }
  }

  // ---------------------------------------------------------------- work done

  // Over the first k pieces: their length, once for every step running.
  function Work(entries: seq<Target>, cuts: seq<real>, k: nat): real
    requires k <= |cuts|
  {
    if k == 0 then 0.0
    else
      var a, b := Prev(cuts, k - 1), cuts[k - 1];
      Work(entries, cuts, k - 1) + Repeat(|Covering(entries, a, b)|, b - a)
  }

  function Lengths(cuts: seq<real>): (ls: seq<real>)
    ensures |ls| == |cuts|
    ensures forall j {:trigger ls[j]} :: 0 <= j < |cuts| ==> ls[j] == cuts[j] - Prev(cuts, j)
  {
    seq(|cuts|, j requires 0 <= j < |cuts| => cuts[j] - Prev(cuts, j))
  }

  lemma {:induction false} ShareOfLengths(cuts: seq<real>, t: Target, k: nat)
    requires k <= |cuts|
    ensures ShareUpTo(cuts, Lengths(cuts), t, k) == CoveredLength(cuts, t, k)
  {
    if k > 0 {
      ShareOfLengths(cuts, t, k - 1);
    }
  }

  lemma {:induction false} SumOfLengths(entries: seq<Target>, cuts: seq<real>, k: nat)
    requires Distinct(entries) && k <= |cuts|
    ensures SumShares(entries, cuts, Lengths(cuts), k) == Work(entries, cuts, k)
  {
    if k == 0 {
      SumSharesNone(entries, cuts, Lengths(cuts));
    } else {
      SumOfLengths(entries, cuts, k - 1);
      var a, b := Prev(cuts, k - 1), cuts[k - 1];
      var running := Covering(entries, a, b);
      SumSharesStep(entries, cuts, Lengths(cuts), k, running);
      CountInIsCardinality(entries, running);
    }
  }
}
