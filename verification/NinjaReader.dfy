// ReadTargets and the main program around it: the dictionary of targets, reset whenever the log
// shows that a new build began.
module NinjaReader {
  import opened Options
  import opened NinjaTarget
  import opened Sequences
  import opened NinjaLog
  import opened NinjaSweepSpec
  import opened NinjaSweep
  import opened NinjaRefine
  import Report = NinjaReport

  const HEADER := "# ninja log v5\n"

  datatype ReadResult =
    | BadHeader            // an AssertionError in the script
    | BadNumber            // a ValueError in the script
    | Targets(targets: seq<Target>)

  // In a consistent window, a step conflicts with an entry exactly if its first entry does.
  lemma ConflictWithFirst(l: seq<Entry>, e: Entry)
    requires Consistent(l)
    ensures (exists i :: 0 <= i < |l| && Conflict(l[i], e))
       <==> e.hash in Hashes(l) && Conflict(FirstOf(l, e.hash), e)
  {
    if i :| 0 <= i < |l| && Conflict(l[i], e) {
      EntryHasHash(l, i);
      var j := FirstOfIndex(l, e.hash);
      assert i == j || !Conflict(l[if i < j then i else j], l[if i < j then j else i]);
    }
    if e.hash in Hashes(l) && Conflict(FirstOf(l, e.hash), e) {
      var j := FirstOfIndex(l, e.hash);
    }
  }

  lemma ConflictInSuffix(es: seq<Entry>, w: nat, e: Entry)
    requires w <= |es|
    ensures (exists j :: w <= j < |es| && Conflict((es + [e])[j], (es + [e])[|es|]))
       <==> exists i :: 0 <= i < |es[w..]| && Conflict(es[w..][i], e)
  {
    var es' := es + [e];
    if j :| w <= j < |es| && Conflict(es'[j], es'[|es|]) {
      assert es[w..][j - w] == es'[j];
    }
    if i :| 0 <= i < |es[w..]| && Conflict(es[w..][i], e) {
      assert es'[w + i] == es[w..][i];
    }
  }

  // The test the script makes is the one that decides where the last build starts.
  lemma BreaksIff(es: seq<Entry>, e: Entry)
    ensures var l := Window(es, false);
            Breaks(es + [e], WindowStart(es, false), |es|)
            <==> || e.end < (if es == [] then 0.0 else es[|es| - 1].end)
                 || (e.hash in Hashes(l) && Conflict(FirstOf(l, e.hash), e))
  {
    WindowIsConsistent(es);
    ConflictInSuffix(es, WindowStart(es, false), e);
    ConflictWithFirst(Window(es, false), e);
  }

  // When an entry starts a new build: its end lies before the one read last, or some line of the
  // current build has its hash and another start or end.
  lemma WindowRestarts(es: seq<Entry>, e: Entry)
    ensures var build, lastEnd := Window(es, false), if es == [] then 0.0 else es[|es| - 1].end;
            Window(es + [e], false)
            == if e.end < lastEnd
                  || exists i :: 0 <= i < |build| && build[i].hash == e.hash
                                 && (build[i].start != e.start || build[i].end != e.end)
               then [e] else build + [e]
  {
    WindowStep(es, e, false);
    ConflictInSuffix(es, WindowStart(es, false), e);
    var build := Window(es, false);
    if i :| 0 <= i < |build| && Conflict(build[i], e) {
      assert build[i].hash == e.hash && (build[i].start != e.start || build[i].end != e.end);
    }
    if i :| 0 <= i < |build| && build[i].hash == e.hash && (build[i].start != e.start || build[i].end != e.end) {
      assert Conflict(build[i], e);
    }
  }

  // A log of one build: ends in order, and one start and one end for all lines of a hash.
  ghost predicate OneBuild(es: seq<Entry>) {
    && (forall i :: 0 <= i < |es| ==> es[i].end >= 0.0)
    && (forall i, j :: 0 <= i < j < |es| ==> es[i].end <= es[j].end)
    && (forall i, j :: 0 <= i < j < |es| && es[i].hash == es[j].hash ==>
          es[i].start == es[j].start && es[i].end == es[j].end)
  }

  ghost predicate Joins(es: seq<Entry>, e: Entry) {
    && (if es == [] then e.end >= 0.0 else e.end >= es[|es| - 1].end)
    && forall i :: 0 <= i < |es| && es[i].hash == e.hash ==> es[i].start == e.start && es[i].end == e.end
  }

  lemma OneBuildPrefix(es: seq<Entry>)
    requires OneBuild(es) && es != []
    ensures OneBuild(es[..|es| - 1]) && Joins(es[..|es| - 1], es[|es| - 1])
  {
  }

  lemma JoinedIsKept(es: seq<Entry>, e: Entry)
    ensures Window(es, false) == es && Joins(es, e) ==> Window(es + [e], false) == es + [e]
  {
    WindowRestarts(es, e);
  }

  // It is kept whole.
  lemma {:induction false} OneBuildIsKept(es: seq<Entry>)
    requires OneBuild(es)
    ensures Window(es, false) == es
  {
    if es == [] {
      EmptyIsKept();
    } else {
      var before, e := es[..|es| - 1], es[|es| - 1];
      OneBuildPrefix(es);
      OneBuildIsKept(before);
      JoinedIsKept(before, e);
      assert es == before + [e];
    }
  }

  lemma EmptyIsKept()
    ensures Window([], false) == []
  {
  }

  // With show_all every line is kept.
  lemma EverythingIsKept(es: seq<Entry>)
    ensures Window(es, true) == es
  {
  }

  // The dictionary describes exactly the entries of the window: keys in order of appearance.
  ghost predicate Describes(order: seq<string>, dict: map<string, Target>, es: seq<Entry>)
    reads dict.Values
  {
    && order == Hashes(es) && dict.Keys == (set h | h in order)
    && (forall h :: h in dict ==>
          && dict[h].start == FirstOf(es, h).start && dict[h].end == FirstOf(es, h).end
          && dict[h].targets == NamesOf(es, h))
    && (forall g, h :: g in dict && h in dict && g != h ==> dict[g] != dict[h])
  }

  // One entry goes into the dictionary: a new target, or one more output of an old one.
  method Record(order: seq<string>, dict: map<string, Target>, e: Entry, ghost es: seq<Entry>)
    returns (order': seq<string>, dict': map<string, Target>)
    requires Describes(order, dict, es)
    modifies dict.Values`targets
    ensures Describes(order', dict', es + [e])
    ensures fresh(dict'.Values - dict.Values)
  {
    ghost var es' := es + [e];
    assert es'[..|es|] == es;
    order', dict' := order, dict;
    if e.hash !in dict {
      var target := new Target(e.start, e.end);
      dict' := dict[e.hash := target];
      order' := order + [e.hash];
      NoNames(es, e.hash);
    }
    assert order' == Hashes(es');
    dict'[e.hash].targets := dict'[e.hash].targets + [e.name];
  }

  // One well-formed line: reset the dictionary if a new build began, then record the entry.
  method ReadEntry(order: seq<string>, dict: map<string, Target>, e: Entry, showAll: bool, lastEndSeen: real,
                   ghost es: seq<Entry>)
    returns (order': seq<string>, dict': map<string, Target>)
    requires Describes(order, dict, Window(es, showAll))
    requires lastEndSeen == if es == [] then 0.0 else es[|es| - 1].end
    modifies dict.Values`targets
    ensures Describes(order', dict', Window(es + [e], showAll))
    ensures fresh(dict'.Values - dict.Values)
  {
    WindowStep(es, e, showAll);
    if !showAll {
      BreaksIff(es, e);
      if e.hash in Hashes(Window(es, false)) {
        var j := FirstOfIndex(Window(es, false), e.hash);
      }
    }
    if !showAll && e.end < lastEndSeen {
      order', dict' := Record([], map[], e, []);
      return;
    }
    if e.hash in dict && !showAll && (dict[e.hash].start != e.start || dict[e.hash].end != e.end) {
      order', dict' := Record([], map[], e, []);
      return;
    }
    order', dict' := Record(order, dict, e, Window(es, showAll));
  }

  // One target per step of the build, in order of first appearance.
  ghost predicate Describe(targets: seq<Target>, es: seq<Entry>)
    reads targets
  {
    && Distinct(targets) && |targets| == |Hashes(es)|
    && forall i :: 0 <= i < |targets| ==>
         && targets[i].start == FirstOf(es, Hashes(es)[i]).start
         && targets[i].end == FirstOf(es, Hashes(es)[i]).end
         && targets[i].targets == NamesOf(es, Hashes(es)[i])
  }

  // The dictionary's values, in insertion order.
  method Values(order: seq<string>, dict: map<string, Target>, ghost es: seq<Entry>) returns (targets: seq<Target>)
    requires Describes(order, dict, es)
    ensures Describe(targets, es)
    ensures forall i :: 0 <= i < |targets| ==> targets[i] in dict.Values
  {
    HashesDistinct(es);
    targets := seq(|order|, i requires 0 <= i < |order| && order[i] in dict => dict[order[i]]);
    forall i: nat, j: nat | i < j < |targets| ensures Differ(targets, i, j) {
      assert Differ(order, i, j);
    }
  }

  method ReadTargets(header: string, lines: seq<Line>, showAll: bool, toInt: string -> Option<int>)
    returns (r: ReadResult)
    ensures r.BadHeader? <==> header != HEADER
    ensures r.BadNumber? <==> header == HEADER && ParseAll(lines, toInt) == None
    ensures r.Targets? ==> ParseAll(lines, toInt).Some?
                           && Describe(r.targets, Window(ParseAll(lines, toInt).value, showAll))
    ensures r.Targets? ==> forall i :: 0 <= i < |r.targets| ==> fresh(r.targets[i])
  {
    if header != HEADER {
      return BadHeader;
    }
    var ok, order, dict, es := ReadLines(lines, showAll, toInt);
    if !ok {
      return BadNumber;
    }
    var targets := Values(order, dict, Window(es, showAll));
    r := Targets(targets);
  }

  // One line: skipped unless it has five fields.
  method ReadLine(line: Line, showAll: bool, toInt: string -> Option<int>, order: seq<string>, dict: map<string, Target>,
                  lastEndSeen: real, ghost es: seq<Entry>)
    returns (ok: bool, order': seq<string>, dict': map<string, Target>, lastEndSeen': real, ghost es': seq<Entry>)
    requires Describes(order, dict, Window(es, showAll))
    requires lastEndSeen == if es == [] then 0.0 else es[|es| - 1].end
    modifies dict.Values`targets
    ensures ok <==> |line| != 5 || ParseLine(line, toInt).Some?
    ensures ok ==> es' == if |line| != 5 then es else es + [ParseLine(line, toInt).value]
    ensures ok ==> Describes(order', dict', Window(es', showAll))
    ensures ok ==> lastEndSeen' == if es' == [] then 0.0 else es'[|es'| - 1].end
    ensures fresh(dict'.Values - dict.Values)
  {
    ok, order', dict', lastEndSeen', es' := true, order, dict, lastEndSeen, es;
    if |line| == 5 {
      var parsed := ParseLine(line, toInt);
      if parsed == None {
        ok := false;
        return;
      }
      order', dict' := ReadEntry(order, dict, parsed.value, showAll, lastEndSeen, es);
      lastEndSeen' := parsed.value.end;
      es' := es + [parsed.value];
    }
  }

  // The loop over the lines.
  method ReadLines(lines: seq<Line>, showAll: bool, toInt: string -> Option<int>)
    returns (ok: bool, order: seq<string>, dict: map<string, Target>, ghost es: seq<Entry>)
    ensures !ok <==> ParseAll(lines, toInt) == None
    ensures ok ==> ParseAll(lines, toInt) == Some(es) && Describes(order, dict, Window(es, showAll))
    ensures fresh(dict.Values)
  {
    order, dict, es := [], map[], [];
    var lastEndSeen := 0.0;
    for k := 0 to |lines|
      invariant ParseAll(lines[..k], toInt) == Some(es)
      invariant lastEndSeen == if es == [] then 0.0 else es[|es| - 1].end
      invariant Describes(order, dict, Window(es, showAll))
      invariant fresh(dict.Values)
    {
      ParseOneMore(lines, toInt, k, es);
      ok, order, dict, lastEndSeen, es := ReadLine(lines[k], showAll, toInt, order, dict, lastEndSeen, es);
      if !ok {
        ParseFails(lines, toInt, k + 1);
        return;
      }
    }
    assert lines[..|lines|] == lines;
    ok := true;
  }

  lemma ParseOneMore(lines: seq<Line>, toInt: string -> Option<int>, k: nat, es: seq<Entry>)
    requires k < |lines| && ParseAll(lines[..k], toInt) == Some(es)
    ensures ParseAll(lines[..k + 1], toInt)
         == if |lines[k]| != 5 then Some(es)
            else if ParseLine(lines[k], toInt) == None then None
            else Some(es + [ParseLine(lines[k], toInt).value])
  {
    assert lines[..k + 1][..k] == lines[..k];
  }

  lemma {:induction false} ParseFails(lines: seq<Line>, toInt: string -> Option<int>, k: nat)
    requires k <= |lines| && ParseAll(lines[..k], toInt) == None
    ensures ParseAll(lines, toInt) == None
    decreases |lines| - k
  {
    if k == |lines| {
      assert lines[..k] == lines;
    } else {
      assert lines[..k + 1][..k] == lines[..k];
      ParseFails(lines, toInt, k + 1);
    }
  }

  // The start and end of each step of a build, in order of first appearance.
  function StepStarts(es: seq<Entry>): (xs: seq<real>) {
    seq(|Hashes(es)|, i requires 0 <= i < |Hashes(es)| => FirstOf(es, Hashes(es)[i]).start)
  }

  function StepEnds(es: seq<Entry>): (xs: seq<real>) {
    seq(|Hashes(es)|, i requires 0 <= i < |Hashes(es)| => FirstOf(es, Hashes(es)[i]).end)
  }

  // Some line of the build ends before it starts.
  ghost predicate Backwards(es: seq<Entry>) {
    exists i :: 0 <= i < |es| && es[i].end < es[i].start
  }

  lemma TargetTimes(targets: seq<Target>, es: seq<Entry>)
    requires Describe(targets, es)
    ensures Report.Starts(targets) == StepStarts(es) && Report.Ends(targets) == StepEnds(es)
    ensures targets == [] <==> es == []
  {
    if es != [] {
      EntryHasHash(es, 0);
    }
  }

  lemma BackwardsTargets(targets: seq<Target>, es: seq<Entry>)
    requires Describe(targets, Window(es, false))
    ensures (exists t :: t in targets && t.end < t.start) <==> Backwards(Window(es, false))
  {
    var l := Window(es, false);
    if t :| t in targets && t.end < t.start {
      var k :| 0 <= k < |targets| && targets[k] == t;
      var j := FirstOfIndex(l, Hashes(l)[k]);
      assert l[j].end < l[j].start;
    }
    if i :| 0 <= i < |l| && l[i].end < l[i].start {
      WindowTimes(es, i);
      var k :| 0 <= k < |Hashes(l)| && Hashes(l)[k] == l[i].hash;
      assert targets[k] in targets && targets[k].end < targets[k].start;
    }
  }

  // Every way in which the report can fail, told from the lines of the build.
  ghost predicate Outcome(r: Report.Report, build: seq<Entry>) {
    var first, last := Report.Earliest(StepStarts(build)), Report.Latest(StepEnds(build));
    && (r.NoEntries? <==> build == [])
    && (r.StopBeforeStart? <==> Backwards(build))
    && (r.ZeroLength? <==> build != [] && !Backwards(build) && last == first)
    && (r.Report? ==> r.length == last - first)
  }

  // Every step holds its share, the total is the busy time, and no assertion can fire.
  ghost predicate SharedOut(r: Report.Report, targets: seq<Target>)
    requires r.Swept()
    reads targets
  {
    && (forall t :: t in targets ==> t.weightedDuration == Share(targets, Cuts(targets), t) && t.AssertionHolds())
    && r.weightedTotal == Busy(targets, Cuts(targets), |Cuts(targets)|)
    && r.totalCpuTime == Work(targets, Cuts(targets), |Cuts(targets)|)
  }

  method ReportOn(targets: seq<Target>, ghost es: seq<Entry>) returns (r: Report.Report)
    requires Describe(targets, Window(es, false))
    modifies targets`weightedDuration
    ensures Describe(targets, Window(es, false)) && Outcome(r, Window(es, false))
    ensures r.Swept() ==> SharedOut(r, targets)
  {
    TargetTimes(targets, Window(es, false));
    BackwardsTargets(targets, es);
    r := Report.SummarizeEntries(targets);
  }

  // The script: read the last build, then report on it.
  method ReportLastBuild(header: string, lines: seq<Line>, toInt: string -> Option<int>)
    returns (read: ReadResult, report: Option<Report.Report>)
    ensures read.BadHeader? <==> header != HEADER
    ensures read.BadNumber? <==> header == HEADER && ParseAll(lines, toInt) == None
    ensures report.Some? <==> read.Targets?
    ensures read.Targets? ==> ParseAll(lines, toInt).Some?
    ensures read.Targets? ==> Describe(read.targets, Window(ParseAll(lines, toInt).value, false))
    ensures read.Targets? ==> Outcome(report.value, Window(ParseAll(lines, toInt).value, false))
    ensures report.Some? && report.value.Swept() ==> SharedOut(report.value, read.targets)
  {
    read := ReadTargets(header, lines, false, toInt);
    report := None;
    if read.Targets? {
      var r := ReportOn(read.targets, ParseAll(lines, toInt).value);
      report := Some(r);
    }
  }
}
