// What the build-time report is meant to compute, stated without any sweep: time is cut at
// every start and every end, and the time of each piece is shared equally by the steps that
// cover it.
module NinjaSweepSpec {
  import opened NinjaTarget
  import opened Sets

  predicate Covers(t: Target, a: real, b: real) {
    t.start <= a && b <= t.end
  }

  function Covering(entries: seq<Target>, a: real, b: real): set<Target> {
    set t | t in entries && Covers(t, a, b)
  }

  // What one step that covers the piece [a, b] is charged for it.
  function Charge(entries: seq<Target>, a: real, b: real): real {
    var running := Covering(entries, a, b);
    if a < b && running != {} then (b - a) / |running| as real else 0.0
  }

  // The cut before cut k; the piece before the first cut is empty.
  function Prev(cuts: seq<real>, k: nat): real
    requires k <= |cuts| && cuts != []
  {
    if k == 0 then cuts[0] else cuts[k - 1]
  }

  // The charge of every piece.
  function Charges(entries: seq<Target>, cuts: seq<real>): (cs: seq<real>)
    ensures |cs| == |cuts|
    ensures forall j {:trigger cs[j]} :: 0 <= j < |cuts| ==> cs[j] == Charge(entries, Prev(cuts, j), cuts[j])
  {
    seq(|cuts|, j requires 0 <= j < |cuts| => Charge(entries, Prev(cuts, j), cuts[j]))
  }

  // What step t is charged over the first k pieces: those that lie inside its interval.
  function ShareUpTo(cuts: seq<real>, charges: seq<real>, t: Target, k: nat): real
    requires k <= |cuts| == |charges|
  {
    if k == 0 then 0.0
    else
      ShareUpTo(cuts, charges, t, k - 1)
      + if Covers(t, Prev(cuts, k - 1), cuts[k - 1]) then charges[k - 1] else 0.0
  }

  // The share of step t: over its interval, the integral of 1 / (number of steps running).
  function Share(entries: seq<Target>, cuts: seq<real>, t: Target): real {
    ShareUpTo(cuts, Charges(entries, cuts), t, |cuts|)
  }

  // Time in the first k pieces covered by at least one step: the measure of the union of the
  // intervals, up to there.
  function Busy(entries: seq<Target>, cuts: seq<real>, k: nat): real
    requires k <= |cuts|
  {
    if k == 0 then 0.0
    else
      var a, b := Prev(cuts, k - 1), cuts[k - 1];
      Busy(entries, cuts, k - 1) + if Covering(entries, a, b) != {} then b - a else 0.0
  }

  // Time in the first k pieces covered by no step.
  function Idle(entries: seq<Target>, cuts: seq<real>, k: nat): real
    requires k <= |cuts|
  {
    if k == 0 then 0.0
    else
      var a, b := Prev(cuts, k - 1), cuts[k - 1];
      Idle(entries, cuts, k - 1) + if Covering(entries, a, b) == {} then b - a else 0.0
  }

  ghost predicate Ascending(cuts: seq<real>) {
    forall i, j :: 0 <= i <= j < |cuts| ==> cuts[i] <= cuts[j]
  }

  // Busy and idle time tile the whole span.
  lemma {:induction false} BusyPlusIdle(entries: seq<Target>, cuts: seq<real>, k: nat)
    requires 0 < k <= |cuts|
    ensures Busy(entries, cuts, k) + Idle(entries, cuts, k) == cuts[k - 1] - cuts[0]
  {
    if k > 1 {
      BusyPlusIdle(entries, cuts, k - 1);
    }
  }

  // The pieces inside t's interval tile it: their total length up to cut k.
  function CoveredLength(cuts: seq<real>, t: Target, k: nat): real
    requires k <= |cuts|
  {
    if k == 0 then 0.0
    else
      var a, b := Prev(cuts, k - 1), cuts[k - 1];
      CoveredLength(cuts, t, k - 1) + if Covers(t, a, b) then b - a else 0.0
  }

  function Clamp(t: Target, x: real): real {
    if x < t.start then t.start else if x > t.end then t.end else x
  }

  lemma {:induction false} CoveredLengthIsClamp(cuts: seq<real>, t: Target, k: nat)
    requires Ascending(cuts) && 0 < k <= |cuts|
    requires t.start <= t.end && t.start in cuts && t.end in cuts
    ensures CoveredLength(cuts, t, k) == Clamp(t, cuts[k - 1]) - Clamp(t, cuts[0])
  {
    if k == 1 {
    } else {
      CoveredLengthIsClamp(cuts, t, k - 1);
      var i :| 0 <= i < |cuts| && cuts[i] == t.start;
      var j :| 0 <= j < |cuts| && cuts[j] == t.end;
      // neither end of t lies strictly between two neighbouring cuts
      assert i <= k - 2 || k - 1 <= i;
      assert j <= k - 2 || k - 1 <= j;
    }
  }

  lemma {:induction false} CoveringAtMost(entries: seq<Target>, a: real, b: real)
    ensures |Covering(entries, a, b)| <= |entries|
  {
    if entries != [] {
      var rest := entries[1..];
      CoveringAtMost(rest, a, b);
      assert Covering(entries, a, b) <= Covering(rest, a, b) + {entries[0]};
      SubsetCardinality(Covering(entries, a, b), Covering(rest, a, b) + {entries[0]});
    }
  }

  // ---------------------------------------------------------------- charges without division

  // n times q, by repeated addition.
  function Repeat(n: nat, q: real): real {
    if n == 0 then 0.0 else q + Repeat(n - 1, q)
  }

  lemma {:induction false} RepeatIsProduct(n: nat, q: real)
    ensures Repeat(n, q) == n as real * q
  {
    if n > 0 {
      RepeatIsProduct(n - 1, q);
    }
  }

  lemma {:induction false} RepeatAdd(n: nat, p: real, q: real)
    ensures Repeat(n, p + q) == Repeat(n, p) + Repeat(n, q)
  {
    if n > 0 {
      RepeatAdd(n - 1, p, q);
    }
  }

  lemma {:induction false} RepeatGrows(m: nat, n: nat, q: real)
    requires 1 <= m <= n
    ensures q >= 0.0 ==> q <= Repeat(m, q) <= Repeat(n, q)
    ensures q < 0.0 ==> Repeat(m, q) < 0.0
  {
    if m < n {
      RepeatGrows(m, n - 1, q);
    } else if n > 1 {
      RepeatGrows(n - 1, n - 1, q);
    }
  }

  lemma RepeatIsInjective(n: nat, p: real, q: real)
    requires n > 0 && Repeat(n, p) == Repeat(n, q)
    ensures p == q
  {
    RepeatAdd(n, p, q - p);
    RepeatAdd(n, q, p - q);
    RepeatGrows(n, n, q - p);
    RepeatGrows(n, n, p - q);
  }

  lemma QuotientRepeats(x: real, n: nat)
    requires n > 0
    ensures Repeat(n, x / n as real) == x
  {
    RepeatIsProduct(n, x / n as real);
  }

  // The steps running in a piece split its length evenly.
  ghost predicate FairAt(entries: seq<Target>, a: real, b: real, charge: real) {
    if a < b && Covering(entries, a, b) != {} then Repeat(|Covering(entries, a, b)|, charge) == b - a
    else charge == 0.0
  }

  ghost predicate Fair(entries: seq<Target>, cuts: seq<real>, charges: seq<real>) {
    |charges| == |cuts| && forall j {:trigger charges[j]} :: 0 <= j < |cuts| ==> FairAt(entries, Prev(cuts, j), cuts[j], charges[j])
  }

  lemma ChargeIsFair(entries: seq<Target>, a: real, b: real)
    ensures FairAt(entries, a, b, Charge(entries, a, b))
  {
    var n := |Covering(entries, a, b)|;
    if a < b && Covering(entries, a, b) != {} {
      QuotientRepeats(b - a, n);
    }
  }

  lemma ChargesAreFair(entries: seq<Target>, cuts: seq<real>)
    ensures Fair(entries, cuts, Charges(entries, cuts))
  {
    forall j | 0 <= j < |cuts|
      ensures FairAt(entries, Prev(cuts, j), cuts[j], Charges(entries, cuts)[j])
    {
      ChargeIsFair(entries, Prev(cuts, j), cuts[j]);
    }
  }

  // The share is the sum of fair charges; which ones they are does not matter.
  lemma ShareIsFair(entries: seq<Target>, cuts: seq<real>, t: Target) returns (charges: seq<real>)
    ensures Fair(entries, cuts, charges)
    ensures Share(entries, cuts, t) == ShareUpTo(cuts, charges, t, |cuts|)
  {
    charges := Charges(entries, cuts);
    ChargesAreFair(entries, cuts);
  }

  lemma FairBounds(entries: seq<Target>, t: Target, a: real, b: real, charge: real)
    requires t in entries && Covers(t, a, b) && a <= b && FairAt(entries, a, b, charge)
    ensures 0.0 <= charge <= b - a <= Repeat(|entries|, charge)
  {
    var running := Covering(entries, a, b);
    assert t in running;
    CoveringAtMost(entries, a, b);
    RepeatGrows(|running|, |entries|, charge);
  }

  lemma {:induction false} RepeatZero(n: nat)
    ensures Repeat(n, 0.0) == 0.0
  {
    if n > 0 {
      RepeatZero(n - 1);
    }
  }

  lemma {:induction false} ShareBetween(entries: seq<Target>, cuts: seq<real>, charges: seq<real>, t: Target, k: nat)
    requires t in entries && Ascending(cuts) && k <= |cuts| && Fair(entries, cuts, charges)
    ensures 0.0 <= ShareUpTo(cuts, charges, t, k) <= CoveredLength(cuts, t, k)
    ensures CoveredLength(cuts, t, k) <= Repeat(|entries|, ShareUpTo(cuts, charges, t, k))
  {
    if k == 0 {
      RepeatZero(|entries|);
    } else {
      ShareBetween(entries, cuts, charges, t, k - 1);
      if Covers(t, Prev(cuts, k - 1), cuts[k - 1]) {
        FairBounds(entries, t, Prev(cuts, k - 1), cuts[k - 1], charges[k - 1]);
        RepeatAdd(|entries|, ShareUpTo(cuts, charges, t, k - 1), charges[k - 1]);
      }
    }
  }

  // The pieces inside t's interval add up to its duration.
  lemma CoveredLengthIsDuration(cuts: seq<real>, t: Target)
    requires Ascending(cuts) && t.start <= t.end && t.start in cuts && t.end in cuts
    ensures CoveredLength(cuts, t, |cuts|) == t.Duration()
  {
    CoveredLengthIsClamp(cuts, t, |cuts|);
    var i :| 0 <= i < |cuts| && cuts[i] == t.start;
    var j :| 0 <= j < |cuts| && cuts[j] == t.end;
    assert cuts[0] <= cuts[i] && cuts[j] <= cuts[|cuts| - 1];
  }

  // A step is charged at most its duration, and at least an equal part of it.
  lemma ShareBounds(entries: seq<Target>, cuts: seq<real>, t: Target)
    requires t in entries && Ascending(cuts)
    requires t.start <= t.end && t.start in cuts && t.end in cuts
    ensures 0.0 <= Share(entries, cuts, t) <= t.Duration() <= Repeat(|entries|, Share(entries, cuts, t))
  {
    var charges := ShareIsFair(entries, cuts, t);
    ShareBetween(entries, cuts, charges, t, |cuts|);
    CoveredLengthIsDuration(cuts, t);
  }
}
