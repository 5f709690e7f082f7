// SummarizeEntries: the span of the build, the sweep, and what the two say about each other.
module NinjaReport {
  import opened NinjaTarget
  import opened Sequences
  import opened NinjaSweepSpec
  import opened NinjaSweep
  import opened NinjaRefine

  // The script dies with an IndexError on an empty list, with a KeyError on a step that ends
  // before it starts, and with a ZeroDivisionError, after the sweep, on a build without length.
  datatype Report =
    | NoEntries
    | StopBeforeStart
    | ZeroLength(weightedTotal: real, totalCpuTime: real)
    | Report(length: real, weightedTotal: real, totalCpuTime: real)
  {
    predicate Swept() {
      ZeroLength? || Report?
    }
  }

  function Starts(entries: seq<Target>): (xs: seq<real>)
    ensures |xs| == |entries| && forall i :: 0 <= i < |xs| ==> xs[i] == entries[i].start
  {
    seq(|entries|, i requires 0 <= i < |entries| => entries[i].start)
  }

  function Ends(entries: seq<Target>): (xs: seq<real>)
    ensures |xs| == |entries| && forall i :: 0 <= i < |xs| ==> xs[i] == entries[i].end
  {
    seq(|entries|, i requires 0 <= i < |entries| => entries[i].end)
  }

  // The "earliest" variable after the loop: -1 stands for "none yet", and so does any negative
  // value.
  function Earliest(starts: seq<real>): real {
    if starts == [] then -1.0
    else
      var n := |starts| - 1;
      var e := Earliest(starts[..n]);
      if e < 0.0 || starts[n] < e then starts[n] else e
  }

  function Latest(ends: seq<real>): real {
    if ends == [] then 0.0
    else
      var n := |ends| - 1;
      var l := Latest(ends[..n]);
      if ends[n] > l then ends[n] else l
  }

  function TotalDuration(entries: seq<Target>): real {
    if entries == [] then 0.0
    else TotalDuration(entries[..|entries| - 1]) + entries[|entries| - 1].Duration()
  }

  ghost predicate IsLeast(xs: seq<real>, x: real) {
    x in xs && forall y :: y in xs ==> x <= y
  }

  ghost predicate IsGreatest(xs: seq<real>, x: real) {
    x in xs && forall y :: y in xs ==> y <= x
  }

  lemma {:induction false} EarliestIsSomeStart(starts: seq<real>)
    requires starts != []
    ensures Earliest(starts) in starts
  {
    var n := |starts| - 1;
    if n > 0 && starts[n] != Earliest(starts) {
      EarliestIsSomeStart(starts[..n]);
    }
  }

  // Once a negative start has been seen, the variable forgets it at the next entry.
  lemma {:induction false} EarliestAfterNegative(starts: seq<real>)
    requires starts != []
    ensures (forall x :: x in starts ==> x >= 0.0) ==> IsLeast(starts, Earliest(starts))
    ensures Earliest(starts) >= 0.0 || Earliest(starts) == starts[|starts| - 1]
  {
    var n := |starts| - 1;
    EarliestIsSomeStart(starts);
    assert starts == starts[..n] + [starts[n]];
    if n > 0 {
      EarliestAfterNegative(starts[..n]);
      EarliestIsSomeStart(starts[..n]);
      assert forall x :: x in starts[..n] ==> x in starts;
    }
  }

  // The loop finds the first start exactly when no start is negative or the last entry starts
  // first.
  lemma EarliestIsFirstStart(starts: seq<real>)
    requires starts != []
    ensures IsLeast(starts, Earliest(starts))
       <==> (forall x :: x in starts ==> x >= 0.0) || IsLeast(starts, starts[|starts| - 1])
  {
    var last := starts[|starts| - 1];
    EarliestAfterNegative(starts);
    assert last in starts;
    if IsLeast(starts, last) && last < 0.0 {
      assert Earliest(starts) == last;
    }
  }

  lemma NegativeStartIsForgotten()
    ensures Earliest([-5.0, 3.0]) == 3.0 && !IsLeast([-5.0, 3.0], 3.0)
  {
    assert [-5.0, 3.0][..1] == [-5.0];
    assert -5.0 in [-5.0, 3.0];
  }

  lemma {:induction false} LatestBounds(ends: seq<real>)
    ensures forall x :: x in ends ==> x <= Latest(ends)
    ensures Latest(ends) >= 0.0 && (Latest(ends) in ends || Latest(ends) == 0.0)
  {
    if ends != [] {
      var n := |ends| - 1;
      LatestBounds(ends[..n]);
      assert ends == ends[..n] + [ends[n]];
    }
  }

  // The "latest" loop finds the last end exactly when some end is not negative.
  lemma LatestIsLastEnd(ends: seq<real>)
    ensures IsGreatest(ends, Latest(ends)) <==> exists x :: x in ends && x >= 0.0
  {
    LatestBounds(ends);
  }

  // The first cut is the first start and the last cut the last end.
  lemma CutsSpan(entries: seq<Target>)
    requires entries != [] && Distinct(entries) && forall t :: t in entries ==> t.start <= t.end
    ensures |Cuts(entries)| > 0
    ensures IsLeast(Starts(entries), Cuts(entries)[0])
    ensures IsGreatest(Ends(entries), Cuts(entries)[|Cuts(entries)| - 1])
  {
    var cuts, events := Cuts(entries), SortEvents(EventsOf(entries));
    var first, last := cuts[0], cuts[|cuts| - 1];
    CutsContents(entries);
    ScheduleIsComplete(entries, events);
    forall t | t in entries ensures first <= t.start && t.end <= last {
      CutsAround(cuts, t.start);
      CutsAround(cuts, t.end);
    }
    assert OfEntry(entries, events[0]) && OfEntry(entries, events[|events| - 1]);
    assert first == events[0].time && last == events[|events| - 1].time;
    FirstAndLast(entries, events[0].target, first, events[|events| - 1].target, last);
  }

  lemma CutsAround(cuts: seq<real>, x: real)
    requires Ascending(cuts) && x in cuts
    ensures cuts[0] <= x <= cuts[|cuts| - 1]
  {
    var i :| 0 <= i < |cuts| && cuts[i] == x;
  }

  lemma FirstAndLast(entries: seq<Target>, t: Target, x: real, u: Target, y: real)
    requires t in entries && u in entries && (x == t.start || x == t.end) && (y == u.start || y == u.end)
    requires forall e :: e in entries ==> e.start <= e.end && x <= e.start && e.end <= y
    ensures IsLeast(Starts(entries), x) && IsGreatest(Ends(entries), y)
  {
    var i :| 0 <= i < |entries| && entries[i] == t;
    var j :| 0 <= j < |entries| && entries[j] == u;
    assert Starts(entries)[i] == x && Ends(entries)[j] == y;
  }

  // What the two loops find when no start is negative.
  lemma SpanOfBuild(entries: seq<Target>)
    requires entries != [] && forall t :: t in entries ==> 0.0 <= t.start <= t.end
    ensures IsLeast(Starts(entries), Earliest(Starts(entries)))
    ensures IsGreatest(Ends(entries), Latest(Ends(entries)))
  {
    forall x | x in Starts(entries) ensures x >= 0.0 {
      var i :| 0 <= i < |entries| && Starts(entries)[i] == x;
      assert entries[i] in entries;
    }
    EarliestAfterNegative(Starts(entries));
    LatestIsLastEnd(Ends(entries));
    assert entries[0] in entries;
    assert Ends(entries)[0] in Ends(entries) && Ends(entries)[0] >= 0.0;
  }

  // With no negative start, the reported length is busy time plus idle time; so the weighted
  // total is the length exactly when the build was never idle.
  lemma LengthIsBusyPlusIdle(entries: seq<Target>)
    requires entries != [] && Distinct(entries)
    requires forall t :: t in entries ==> 0.0 <= t.start <= t.end
    ensures Latest(Ends(entries)) - Earliest(Starts(entries))
         == Busy(entries, Cuts(entries), |Cuts(entries)|) + Idle(entries, Cuts(entries), |Cuts(entries)|)
  {
    var cuts := Cuts(entries);
    CutsSpan(entries);
    SpanOfBuild(entries);
    BusyPlusIdle(entries, cuts, |cuts|);
  }

  // And there is no length to divide by exactly when everything happened at one moment.
  lemma ZeroLengthIsOneMoment(entries: seq<Target>)
    requires entries != [] && forall t :: t in entries ==> 0.0 <= t.start <= t.end
    ensures Latest(Ends(entries)) == Earliest(Starts(entries))
       <==> forall t :: t in entries ==> t.start == t.end == entries[0].start
  {
    var first, last := Earliest(Starts(entries)), Latest(Ends(entries));
    SpanOfBuild(entries);
    forall i | 0 <= i < |entries| ensures first <= entries[i].start <= entries[i].end <= last {
      assert Starts(entries)[i] in Starts(entries) && Ends(entries)[i] in Ends(entries);
      assert entries[i] in entries;
    }
    if forall t :: t in entries ==> t.start == t.end == entries[0].start {
      var i :| 0 <= i < |entries| && Starts(entries)[i] == first;
      var j :| 0 <= j < |entries| && Ends(entries)[j] == last;
      assert entries[i] in entries && entries[j] in entries;
    }
  }

  // Every step is charged between nothing and its duration, so the report's own assertion
  // never fires.
  lemma WeightedNeverExceedsDuration(entries: seq<Target>, t: Target)
    requires Distinct(entries) && t in entries && t.start <= t.end
    ensures 0.0 <= Share(entries, Cuts(entries), t) <= t.Duration()
  {
    CutsContents(entries);
    ShareBounds(entries, Cuts(entries), t);
  }

  lemma {:induction false} TotalDurationFront(entries: seq<Target>)
    requires entries != []
    ensures TotalDuration(entries) == entries[0].Duration() + TotalDuration(entries[1..])
  {
    var n := |entries| - 1;
    if n == 0 {
      assert entries[..0] == [] && entries[1..] == [];
      assert TotalDuration(entries[..0]) == 0.0;
    } else {
      TotalDurationFront(entries[..n]);
      assert entries[..n][1..] == entries[1..][..n - 1];
    }
  }

  lemma {:induction false} SumOfDurations(entries: seq<Target>, cuts: seq<real>)
    requires Ascending(cuts)
    requires forall t :: t in entries ==> t.start <= t.end && t.start in cuts && t.end in cuts
    ensures SumShares(entries, cuts, Lengths(cuts), |cuts|) == TotalDuration(entries)
  {
    if entries != [] {
      var t := entries[0];
      assert t in entries;
      SumOfDurations(entries[1..], cuts);
      ShareOfLengths(cuts, t, |cuts|);
      CoveredLengthIsDuration(cuts, t);
      TotalDurationFront(entries);
    }
  }

  // The sum of all durations is the time axis counted once for every step running.
  lemma TotalDurationIsWork(entries: seq<Target>)
    requires Distinct(entries) && forall t :: t in entries ==> t.start <= t.end
    ensures TotalDuration(entries) == Work(entries, Cuts(entries), |Cuts(entries)|)
  {
    CutsContents(entries);
    SumOfDurations(entries, Cuts(entries));
    SumOfLengths(entries, Cuts(entries), |Cuts(entries)|);
  }

  method SummarizeEntries(entries: seq<Target>) returns (r: Report)
    requires Distinct(entries)
    modifies entries`weightedDuration
    ensures r.NoEntries? <==> entries == []
    ensures r.StopBeforeStart? <==> exists t :: t in entries && t.end < t.start
    ensures r.ZeroLength? <==>
              && entries != [] && (forall t :: t in entries ==> t.start <= t.end)
              && Latest(Ends(entries)) == Earliest(Starts(entries))
    ensures r.Swept() ==> forall t :: t in entries ==>
              t.weightedDuration == Share(entries, Cuts(entries), t) && t.AssertionHolds()
    ensures r.Swept() ==> r.weightedTotal == Busy(entries, Cuts(entries), |Cuts(entries)|)
    ensures r.Swept() ==> forall t :: t in entries ==> 0.0 <= t.weightedDuration <= t.end - t.start
    ensures r.Swept() ==> r.totalCpuTime == Work(entries, Cuts(entries), |Cuts(entries)|)
    ensures r.Report? ==> r.length == Latest(Ends(entries)) - Earliest(Starts(entries)) != 0.0
  {
    var events: seq<Event> := [];
    var earliest, latest, total := -1.0, 0.0, 0.0;
    for i := 0 to |entries|
      invariant events == EventsOf(entries[..i])
      invariant earliest == Earliest(Starts(entries[..i])) && latest == Latest(Ends(entries[..i]))
      invariant total == TotalDuration(entries[..i])
    {
      var target := entries[i];
      OneMoreEntry(entries, i);
      if earliest < 0.0 || target.start < earliest {
        earliest := target.start;
      }
      if target.end > latest {
        latest := target.end;
      }
      total := total + target.Duration();
      events := events + [StartOf(target)] + [StopOf(target)];
    }
    assert entries[..|entries|] == entries;
    if entries == [] {
      return NoEntries;
    }
    var sorted := SortEvents(events);
    var ok, weightedTotal := Sweep(entries, sorted);
    if !ok {
      return StopBeforeStart;
    }
    forall t | t in entries ensures t.AssertionHolds() && 0.0 <= t.weightedDuration <= t.end - t.start {
      WeightedNeverExceedsDuration(entries, t);
    }
    TotalDurationIsWork(entries);
    var length := latest - earliest;
    if length == 0.0 {
      return ZeroLength(weightedTotal, total);
    }
    r := Report(length, weightedTotal, total);
  }

  lemma OneMoreEntry(entries: seq<Target>, i: nat)
    requires i < |entries|
    ensures entries[..i + 1][..i] == entries[..i]
    ensures Starts(entries[..i + 1])[..i] == Starts(entries[..i])
    ensures Ends(entries[..i + 1])[..i] == Ends(entries[..i])
  {
  }

  // The sweep over any time order of the events, however ties are broken.
  method Sweep(entries: seq<Target>, events: seq<Event>) returns (ok: bool, weightedTotal: real)
    requires entries != [] && Distinct(entries) && Schedule(entries, events)
    modifies entries`weightedDuration
    ensures ok <==> forall t :: t in entries ==> t.start <= t.end
    ensures ok ==> forall t :: t in entries ==> t.weightedDuration == Share(entries, Cuts(entries), t)
    ensures ok ==> weightedTotal == Busy(entries, Cuts(entries), |Cuts(entries)|)
  {
    ScheduleIsComplete(entries, events);
    CutsDoNotDependOnTies(entries, events);
    SortedTimes(events);
    ChargesAreFair(entries, Times(events));
    ok, weightedTotal := SweepEvents(entries, events, Times(events), Charges(entries, Times(events)));
  }
}
