// Reading a .ninja_log: a log may hold several builds, and only the last one is kept.
module NinjaLog {
  import opened Options
  import opened Sequences

  // A log line, already split at its tabs.
  type Line = seq<string>

  datatype Entry = Entry(start: real, end: real, name: string, hash: string)

  // Milliseconds in the log become seconds.
  function ParseLine(line: Line, toInt: string -> Option<int>): (e: Option<Entry>)
    requires |line| == 5
    ensures e == None <==> toInt(line[0]) == None || toInt(line[1]) == None
    ensures e.Some? ==>
              && e.value.start * 1000.0 == toInt(line[0]).value as real
              && e.value.end * 1000.0 == toInt(line[1]).value as real
              && e.value.name == line[3] && e.value.hash == line[4]
  {
    if toInt(line[0]).Some? && toInt(line[1]).Some? then
      Some(Entry(toInt(line[0]).value as real / 1000.0, toInt(line[1]).value as real / 1000.0, line[3], line[4]))
    else None
  }

  // The lines with five fields; None if a number among them cannot be read.
  function ParseAll(lines: seq<Line>, toInt: string -> Option<int>): Option<seq<Entry>> {
    if lines == [] then Some([])
    else
      var n := |lines| - 1;
      var before := ParseAll(lines[..n], toInt);
      if before == None || |lines[n]| != 5 then before
      else
        var e := ParseLine(lines[n], toInt);
        if e == None then None else Some(before.value + [e.value])
  }

  // Reading fails exactly if a line with five fields has a start or an end that is no number.
  lemma {:induction false} ParseAllFails(lines: seq<Line>, toInt: string -> Option<int>)
    ensures ParseAll(lines, toInt) == None
       <==> exists i :: 0 <= i < |lines| && |lines[i]| == 5 && (toInt(lines[i][0]) == None || toInt(lines[i][1]) == None)
  {
    if lines != [] {
      var n := |lines| - 1;
      ParseAllFails(lines[..n], toInt);
      assert forall i :: 0 <= i < n ==> lines[..n][i] == lines[i];
    }
  }

  // Every line with five fields becomes the next entry, with its own times, output and hash.
  lemma {:induction false} ParsedAt(lines: seq<Line>, toInt: string -> Option<int>, k: nat)
    requires k < |lines| && |lines[k]| == 5 && ParseAll(lines, toInt).Some?
    ensures ParseAll(lines[..k], toInt).Some?
    ensures var before, es := ParseAll(lines[..k], toInt).value, ParseAll(lines, toInt).value;
            && |before| < |es| && before <= es
            && es[|before|].name == lines[k][3] && es[|before|].hash == lines[k][4]
            && toInt(lines[k][0]).Some? && es[|before|].start * 1000.0 == toInt(lines[k][0]).value as real
            && toInt(lines[k][1]).Some? && es[|before|].end * 1000.0 == toInt(lines[k][1]).value as real
  {
    var n := |lines| - 1;
    if k < n {
      assert lines[..n][..k] == lines[..k];
      ParsedAt(lines[..n], toInt, k);
    }
  }

  // And there are no other entries.
  lemma {:induction false} ParsedCount(lines: seq<Line>, toInt: string -> Option<int>)
    requires ParseAll(lines, toInt).Some?
    ensures |ParseAll(lines, toInt).value| == |set i | 0 <= i < |lines| && |lines[i]| == 5|
  {
    if lines != [] {
      var n := |lines| - 1;
      ParsedCount(lines[..n], toInt);
      var before := set i | 0 <= i < n && |lines[i]| == 5;
      assert before == set i | 0 <= i < |lines[..n]| && |lines[..n][i]| == 5;
      assert (set i | 0 <= i < |lines| && |lines[i]| == 5) == before + if |lines[n]| == 5 then {n} else {};
    }
  }

  // ---------------------------------------------------------------- the last build

  ghost predicate Conflict(a: Entry, b: Entry) {
    a.hash == b.hash && (a.start != b.start || a.end != b.end)
  }

  // Entry k cannot belong to the build that the entries from w on belong to: time ran backwards,
  // or a step appears again with other times.
  ghost predicate Breaks(es: seq<Entry>, w: nat, k: nat)
    requires k < |es|
  {
    || es[k].end < (if k == 0 then 0.0 else es[k - 1].end)
    || exists j :: w <= j < k && Conflict(es[j], es[k])
  }

  // Where the last build starts, as far as the log shows.
  ghost function WindowStart(es: seq<Entry>, showAll: bool): (w: nat)
    ensures w <= |es| && (es != [] ==> w < |es|)
  {
    if es == [] || showAll then 0
    else
      var n := |es| - 1;
      var w := WindowStart(es[..n], showAll);
      if Breaks(es, w, n) then n else w
  }

  ghost function Window(es: seq<Entry>, showAll: bool): seq<Entry> {
    es[WindowStart(es, showAll)..]
  }

  // One build: end times in order, and one start and end per step.
  ghost predicate Consistent(es: seq<Entry>) {
    && (forall i, j :: 0 <= i < j < |es| ==> es[i].end <= es[j].end)
    && (forall i, j :: 0 <= i < j < |es| ==> !Conflict(es[i], es[j]))
  }

  lemma ConsistentOneMore(l: seq<Entry>, e: Entry)
    requires Consistent(l) && (l != [] ==> l[|l| - 1].end <= e.end)
    requires forall i :: 0 <= i < |l| ==> !Conflict(l[i], e)
    ensures Consistent(l + [e])
  {
  }

  lemma {:induction false} WindowIsConsistent(es: seq<Entry>)
    ensures Consistent(Window(es, false))
  {
    if es != [] {
      var n := |es| - 1;
      WindowIsConsistent(es[..n]);
      var w, before := WindowStart(es[..n], false), Window(es[..n], false);
      if !Breaks(es, w, n) {
        forall i | 0 <= i < |before| ensures !Conflict(before[i], es[n]) {
          assert before[i] == es[w + i];
        }
        ConsistentOneMore(before, es[n]);
        assert Window(es, false) == before + [es[n]];
      }
    }
  }

  // The window only ever loses its beginning when an entry breaks it.
  lemma WindowStep(es: seq<Entry>, e: Entry, showAll: bool)
    ensures var w := WindowStart(es, showAll);
            Window(es + [e], showAll)
            == if !showAll && Breaks(es + [e], w, |es|) then [e] else Window(es, showAll) + [e]
  {
    assert (es + [e])[..|es|] == es;
  }

  // ---------------------------------------------------------------- one target per step

  // The steps in the order in which they first appear.
  function Hashes(es: seq<Entry>): seq<string> {
    if es == [] then []
    else
      var n := |es| - 1;
      var before := Hashes(es[..n]);
      if es[n].hash in before then before else before + [es[n].hash]
  }

  function FirstOf(es: seq<Entry>, hash: string): Entry
    requires hash in Hashes(es)
  {
    var n := |es| - 1;
    if hash in Hashes(es[..n]) then FirstOf(es[..n], hash) else es[n]
  }

  // The outputs of a step, in log order.
  function NamesOf(es: seq<Entry>, hash: string): seq<string> {
    if es == [] then []
    else
      var n := |es| - 1;
      NamesOf(es[..n], hash) + if es[n].hash == hash then [es[n].name] else []
  }

  lemma {:induction false} EntryHasHash(es: seq<Entry>, i: nat)
    requires i < |es|
    ensures es[i].hash in Hashes(es)
  {
    var n := |es| - 1;
    if i < n {
      EntryHasHash(es[..n], i);
    }
  }

  lemma {:induction false} FirstOfIndex(es: seq<Entry>, hash: string) returns (j: nat)
    requires hash in Hashes(es)
    ensures j < |es| && es[j] == FirstOf(es, hash) && es[j].hash == hash
    ensures forall i :: 0 <= i < j ==> es[i].hash != hash
  {
    var n := |es| - 1;
    if hash in Hashes(es[..n]) {
      j := FirstOfIndex(es[..n], hash);
      assert forall i :: 0 <= i < n ==> es[..n][i] == es[i];
    } else {
      j := n;
      forall i | 0 <= i < j ensures es[i].hash != hash {
        EntryHasHash(es[..n], i);
      }
    }
  }

  // The steps are listed in the order in which they first appear.
  lemma {:induction false} FirstsInOrder(es: seq<Entry>, p: nat, q: nat) returns (i: nat, j: nat)
    requires p < q < |Hashes(es)|
    ensures i < j < |es| && es[i].hash == Hashes(es)[p] && es[j].hash == Hashes(es)[q]
    ensures forall k :: 0 <= k < j ==> es[k].hash != Hashes(es)[q]
  {
    var n := |es| - 1;
    var before := es[..n];
    if q < |Hashes(before)| {
      i, j := FirstsInOrder(before, p, q);
      assert forall k :: 0 <= k < n ==> before[k] == es[k];
    } else {
      assert Hashes(before)[p] in Hashes(before);
      i := FirstOfIndex(before, Hashes(before)[p]);
      j := n;
      forall k | 0 <= k < j ensures es[k].hash != Hashes(es)[q] {
        EntryHasHash(before, k);
      }
    }
  }

  // The outputs of a step are the names of its lines, in order.
  lemma {:induction false} NamesInOrder(es: seq<Entry>, i: nat)
    requires i < |es|
    ensures NamesOf(es[..i], es[i].hash) + [es[i].name] <= NamesOf(es, es[i].hash)
  {
    var n := |es| - 1;
    if i < n {
      assert es[..n][..i] == es[..i];
      NamesInOrder(es[..n], i);
    }
  }

  lemma {:induction false} HashesDistinct(es: seq<Entry>)
    ensures Distinct(Hashes(es))
  {
    if es != [] {
      var n := |es| - 1;
      HashesDistinct(es[..n]);
      if es[n].hash !in Hashes(es[..n]) {
        DistinctAppend(Hashes(es[..n]), es[n].hash);
      }
    }
  }

  function TotalNames(es: seq<Entry>, hashes: seq<string>): nat {
    if hashes == [] then 0 else TotalNames(es, hashes[..|hashes| - 1]) + |NamesOf(es, hashes[|hashes| - 1])|
  }

  lemma {:induction false} TotalNamesStep(es: seq<Entry>, e: Entry, hashes: seq<string>)
    requires Distinct(hashes)
    ensures TotalNames(es + [e], hashes) == TotalNames(es, hashes) + if e.hash in hashes then 1 else 0
  {
    if hashes != [] {
      var n := |hashes| - 1;
      DistinctInit(hashes);
      TotalNamesStep(es, e, hashes[..n]);
      assert hashes == hashes[..n] + [hashes[n]];
      assert (es + [e])[..|es|] == es;
    }
  }

  lemma {:induction false} NoNames(es: seq<Entry>, hash: string)
    requires hash !in Hashes(es)
    ensures NamesOf(es, hash) == []
  {
    if es != [] {
      NoNames(es[..|es| - 1], hash);
    }
  }

  // Every entry's name is listed under exactly one step.
  lemma {:induction false} NamesAddUp(es: seq<Entry>)
    ensures TotalNames(es, Hashes(es)) == |es|
  {
    if es != [] {
      var n := |es| - 1;
      var before, e := es[..n], es[n];
      assert es == before + [e];
      NamesAddUp(before);
      HashesDistinct(before);
      TotalNamesStep(before, e, Hashes(before));
      if e.hash !in Hashes(before) {
        NoNames(before, e.hash);
        var hs := Hashes(before) + [e.hash];
        assert hs[..|Hashes(before)|] == Hashes(before);
        assert es[..n] == before;
      }
    }
  }

  // In the window all entries of a step have the step's start and end.
  lemma WindowTimes(es: seq<Entry>, i: nat)
    requires i < |Window(es, false)|
    ensures var l := Window(es, false);
            l[i].hash in Hashes(l)
            && FirstOf(l, l[i].hash).start == l[i].start && FirstOf(l, l[i].hash).end == l[i].end
  {
    var l := Window(es, false);
    WindowIsConsistent(es);
    EntryHasHash(l, i);
    var j := FirstOfIndex(l, l[i].hash);
    assert !Conflict(l[if i < j then i else j], l[if i < j then j else i]) || i == j;
  }
}
