// The sweep of the build-time report: start and stop events in time order, one running
// accumulator, and for every running step the value the accumulator had when it started.
module NinjaSweep {
  import opened NinjaTarget
  import opened Sequences
  import opened NinjaSweepSpec

  datatype Action = Start | Stop

  datatype Event = Event(time: real, action: Action, target: Target)

  function StartOf(t: Target): Event { Event(t.start, Start, t) }

  function StopOf(t: Target): Event { Event(t.end, Stop, t) }

  // Order of the sort key (time, action); "start" comes before "stop" in the alphabet.
  predicate Leq(a: Event, b: Event) {
    a.time < b.time || (a.time == b.time && (a.action == Start || b.action == Stop))
  }

  ghost predicate Sorted(events: seq<Event>) {
    forall i, j {:trigger Leq(events[i], events[j])} :: 0 <= i < j < |events| ==> Leq(events[i], events[j])
  }

  function EventsOf(entries: seq<Target>): seq<Event> {
    if entries == [] then []
    else
      var n := |entries| - 1;
      EventsOf(entries[..n]) + [StartOf(entries[n]), StopOf(entries[n])]
  }

  function Times(events: seq<Event>): (ts: seq<real>)
    ensures |ts| == |events|
    ensures forall i :: 0 <= i < |ts| ==> ts[i] == events[i].time
  {
    seq(|events|, i requires 0 <= i < |events| => events[i].time)
  }

  // Some time order of all the events; events with equal time and action come in any order.
  ghost predicate Schedule(entries: seq<Target>, events: seq<Event>) {
    Sorted(events) && multiset(events) == multiset(EventsOf(entries))
  }

  // ---------------------------------------------------------------- events and entries

  ghost predicate OfEntry(entries: seq<Target>, e: Event) {
    e.target in entries && (e == StartOf(e.target) || e == StopOf(e.target))
  }

  lemma {:induction false} EventsOfContents(entries: seq<Target>)
    requires Distinct(entries)
    ensures |EventsOf(entries)| == 2 * |entries|
    ensures forall t {:trigger StartOf(t)} {:trigger StopOf(t)} :: t in entries ==>
              StartOf(t) in EventsOf(entries) && StopOf(t) in EventsOf(entries)
    ensures forall e :: e in EventsOf(entries) ==> OfEntry(entries, e)
    ensures Distinct(EventsOf(entries))
  {
    if entries != [] {
      var n := |entries| - 1;
      var t, before := entries[n], EventsOf(entries[..n]);
      DistinctInit(entries);
      EventsOfContents(entries[..n]);
      assert StartOf(t) !in before && StopOf(t) !in before;
      DistinctAppend(before, StartOf(t));
      DistinctAppend(before + [StartOf(t)], StopOf(t));
      assert EventsOf(entries) == before + [StartOf(t)] + [StopOf(t)];
    }
  }

  ghost function Position(events: seq<Event>, e: Event): (i: nat)
    requires e in events
    ensures i < |events| && events[i] == e
  {
    var i :| 0 <= i < |events| && events[i] == e;
    i
  }

  // Every entry's two events occur, once each, and nothing else does.
  ghost predicate Complete(entries: seq<Target>, events: seq<Event>) {
    && (forall t {:trigger StartOf(t)} {:trigger StopOf(t)} :: t in entries ==> StartOf(t) in events && StopOf(t) in events)
    && (forall i {:trigger OfEntry(entries, events[i])} :: 0 <= i < |events| ==> OfEntry(entries, events[i]))
    && (forall i {:trigger Position(events, events[i])} :: 0 <= i < |events| ==> Position(events, events[i]) == i)
  }

  lemma ScheduleIsComplete(entries: seq<Target>, events: seq<Event>)
    requires Distinct(entries) && multiset(events) == multiset(EventsOf(entries))
    ensures Complete(entries, events) && |events| == 2 * |entries|
  {
    EventsOfContents(entries);
    var all := EventsOf(entries);
    assert |multiset(events)| == |events| && |multiset(all)| == |all|;
    forall t | t in entries ensures StartOf(t) in events && StopOf(t) in events {
      assert StartOf(t) in multiset(all) && StopOf(t) in multiset(all);
    }
    forall i | 0 <= i < |events| ensures OfEntry(entries, events[i]) && Position(events, events[i]) == i {
      assert events[i] in multiset(all);
      OccursOnce(all, events, Position(events, events[i]), i);
    }
  }

  lemma OccursTwice<T>(r: seq<T>, i: nat, j: nat)
    requires i < j < |r| && r[i] == r[j]
    ensures multiset(r)[r[i]] >= 2
  {
    assert r == r[..j] + r[j..];
    assert r[i] in r[..j] && r[j] in r[j..];
    assert r[i] in multiset(r[..j]) && r[i] in multiset(r[j..]);
  }

  lemma OccursOnce<T>(s: seq<T>, r: seq<T>, i: nat, j: nat)
    requires Distinct(s) && multiset(s) == multiset(r)
    requires i < |r| && j < |r| && r[i] == r[j]
    ensures i == j
  {
    AtMostOnce(s, r[i]);
    if i < j {
      OccursTwice(r, i, j);
    } else if j < i {
      OccursTwice(r, j, i);
    }
  }

  lemma {:induction false} AtMostOnce<T>(s: seq<T>, x: T)
    requires Distinct(s)
    ensures multiset(s)[x] <= 1
  {
    if s != [] {
      DistinctTail(s);
      AtMostOnce(s[1..], x);
      assert s == [s[0]] + s[1..];
    }
  }

  // ---------------------------------------------------------------- the sort

  function Insert(events: seq<Event>, e: Event): (r: seq<Event>)
    requires Sorted(events)
    ensures Sorted(r) && multiset(r) == multiset(events) + multiset{e}
  {
    var n := |events|;
    if n == 0 then [e]
    else if Leq(events[n - 1], e) then
      assert forall i :: 0 <= i < n - 1 ==> Leq(events[i], events[n - 1]);
      events + [e]
    else
      assert forall i :: 0 <= i < n - 1 ==> Leq(events[i], events[n - 1]);
      assert events == events[..n - 1] + [events[n - 1]];
      var shorter := Insert(events[..n - 1], e);
      assert forall i :: 0 <= i < |shorter| ==> Leq(shorter[i], events[n - 1]) by {
        forall i | 0 <= i < |shorter| ensures Leq(shorter[i], events[n - 1]) {
          assert shorter[i] in multiset(shorter);
          assert shorter[i] == e || shorter[i] in events[..n - 1];
        }
      }
      shorter + [events[n - 1]]
  }

  // Stable sort by (time, action).
  function SortEvents(events: seq<Event>): (r: seq<Event>)
    ensures Sorted(r) && multiset(r) == multiset(events)
  {
    if events == [] then []
    else
      var n := |events| - 1;
      assert events == events[..n] + [events[n]];
      Insert(SortEvents(events[..n]), events[n])
  }

  // The cuts of the time axis: every start and every end, in order.
  function Cuts(entries: seq<Target>): (cuts: seq<real>)
    ensures |cuts| == |EventsOf(entries)|
  {
    var events := SortEvents(EventsOf(entries));
    assert |multiset(events)| == |events|;
    assert |multiset(EventsOf(entries))| == |EventsOf(entries)|;
    Times(events)
  }

  function Without<T>(s: seq<T>, i: nat): seq<T>
    requires i < |s|
  {
    s[..i] + s[i + 1..]
  }

  lemma WithoutMultiset<T>(s: seq<T>, i: nat)
    requires i < |s|
    ensures multiset(s) == multiset(Without(s, i)) + multiset{s[i]}
    ensures multiset(Without(s, i)) == multiset(s) - multiset{s[i]}
  {
    assert s == s[..i] + [s[i]] + s[i + 1..];
  }

  lemma TimesWithout(events: seq<Event>, i: nat)
    requires i < |events|
    ensures Times(Without(events, i)) == Without(Times(events), i)
  {
  }

  lemma {:induction false} TimesMultiset(p: seq<Event>, q: seq<Event>)
    requires multiset(p) == multiset(q)
    ensures multiset(Times(p)) == multiset(Times(q))
    decreases |p|
  {
    if p == [] {
      assert |multiset(q)| == 0;
    } else {
      assert p[0] in multiset(q);
      var i := Position(q, p[0]);
      WithoutMultiset(p, 0);
      WithoutMultiset(q, i);
      TimesMultiset(Without(p, 0), Without(q, i));
      TimesWithout(p, 0);
      TimesWithout(q, i);
      WithoutMultiset(Times(p), 0);
      WithoutMultiset(Times(q), i);
    }
  }

  lemma SameFirst(p: seq<real>, q: seq<real>)
    requires Ascending(p) && Ascending(q) && multiset(p) == multiset(q) && p != [] && q != []
    ensures p[0] == q[0]
  {
    assert p[0] in multiset(q) && q[0] in multiset(p);
    var i :| 0 <= i < |q| && q[i] == p[0];
    var j :| 0 <= j < |p| && p[j] == q[0];
    assert p[0] <= p[j] && q[0] <= q[i];
  }

  lemma TailMultiset<T>(s: seq<T>)
    requires s != []
    ensures multiset(s[1..]) == multiset(s) - multiset{s[0]}
  {
    assert s == [s[0]] + s[1..];
  }

  lemma SameMultisetLength<T>(p: seq<T>, q: seq<T>)
    requires multiset(p) == multiset(q)
    ensures |p| == |q|
  {
    assert |multiset(p)| == |p| && |multiset(q)| == |q|;
  }

  lemma {:induction false} AscendingIsUnique(p: seq<real>, q: seq<real>)
    requires Ascending(p) && Ascending(q) && multiset(p) == multiset(q)
    ensures |p| == |q|
    ensures forall i :: 0 <= i < |p| ==> p[i] == q[i]
  {
    SameMultisetLength(p, q);
    if p != [] {
      SameFirst(p, q);
      TailMultiset(p);
      TailMultiset(q);
      AscendingIsUnique(p[1..], q[1..]);
      forall i | 0 <= i < |p| ensures p[i] == q[i] {
        if i > 0 {
          assert p[1..][i - 1] == q[1..][i - 1];
        }
      }
    }
  }

  // However ties are broken, the cuts are the same; so every share below is too.
  lemma CutsDoNotDependOnTies(entries: seq<Target>, events: seq<Event>)
    requires Schedule(entries, events)
    ensures Times(events) == Cuts(entries)
  {
    var sorted := SortEvents(EventsOf(entries));
    TimesMultiset(events, sorted);
    SortedTimes(events);
    SortedTimes(sorted);
    AscendingIsUnique(Times(events), Times(sorted));
  }

  lemma CutsContents(entries: seq<Target>)
    requires Distinct(entries)
    ensures Ascending(Cuts(entries)) && |Cuts(entries)| == 2 * |entries|
    ensures forall t :: t in entries ==> t.start in Cuts(entries) && t.end in Cuts(entries)
  {
    var sorted := SortEvents(EventsOf(entries));
    var cuts := Cuts(entries);
    ScheduleIsComplete(entries, sorted);
    SortedTimes(sorted);
    forall t | t in entries
      ensures t.start in cuts && t.end in cuts
    {
      assert cuts[Position(sorted, StartOf(t))] == t.start;
      assert cuts[Position(sorted, StopOf(t))] == t.end;
    }
  }

  // ---------------------------------------------------------------- who is running

  // The steps whose start is among the first k events and whose stop is not.
  ghost function Running(entries: seq<Target>, events: seq<Event>, k: nat): set<Target>
    requires Complete(entries, events)
  {
    set t | t in entries && Position(events, StartOf(t)) < k && k <= Position(events, StopOf(t))
  }

  lemma SortedTimes(events: seq<Event>)
    requires Sorted(events)
    ensures Ascending(Times(events))
  {
    forall i, j | 0 <= i < j < |events| ensures Times(events)[i] <= Times(events)[j] {
      assert Leq(events[i], events[j]);
    }
  }

  // Where time passes, the running steps are exactly those that cover the piece.
  lemma RunningIsCovering(entries: seq<Target>, events: seq<Event>, k: nat)
    requires Complete(entries, events) && Ascending(Times(events)) && k < |events|
    requires Prev(Times(events), k) < Times(events)[k]
    ensures Running(entries, events, k) == Covering(entries, Prev(Times(events), k), Times(events)[k])
  {
    var cuts := Times(events);
    forall t | t in entries
      ensures t in Running(entries, events, k) <==> Covers(t, Prev(cuts, k), cuts[k])
    {
      var i, j := Position(events, StartOf(t)), Position(events, StopOf(t));
      assert cuts[i] == t.start && cuts[j] == t.end;
    }
  }

  // A step is charged nothing before it starts...
  lemma {:induction false} NoShareBeforeStart(entries: seq<Target>, cuts: seq<real>, charges: seq<real>, t: Target, k: nat)
    requires Ascending(cuts) && k <= |cuts| && Fair(entries, cuts, charges)
    requires forall i :: 0 <= i < k ==> cuts[i] <= t.start
    ensures ShareUpTo(cuts, charges, t, k) == 0.0
  {
    if k > 0 {
      NoShareBeforeStart(entries, cuts, charges, t, k - 1);
      assert FairAt(entries, Prev(cuts, k - 1), cuts[k - 1], charges[k - 1]);
    }
  }

  // ... and nothing after it ends.
  lemma NoShareAfterEnd(entries: seq<Target>, cuts: seq<real>, charges: seq<real>, t: Target, k: nat)
    requires Ascending(cuts) && 0 < k < |cuts| && Fair(entries, cuts, charges)
    requires t.end <= cuts[k - 1]
    ensures ShareUpTo(cuts, charges, t, k + 1) == ShareUpTo(cuts, charges, t, k)
  {
    assert FairAt(entries, Prev(cuts, k), cuts[k], charges[k]);
  }

  // The busy time grows exactly when someone runs.
  lemma BusyStep(entries: seq<Target>, events: seq<Event>, k: nat)
    requires Complete(entries, events) && Ascending(Times(events)) && k < |events|
    ensures Busy(entries, Times(events), k + 1)
         == Busy(entries, Times(events), k)
            + (if Running(entries, events, k) != {} then Times(events)[k] - Prev(Times(events), k) else 0.0)
  {
    var cuts := Times(events);
    if Prev(cuts, k) < cuts[k] {
      RunningIsCovering(entries, events, k);
    }
  }

  // While steps run, the charge of a piece is its length divided by their number.
  lemma ChargeIsQuotient(entries: seq<Target>, events: seq<Event>, cuts: seq<real>, charges: seq<real>, k: nat, q: real)
    requires Complete(entries, events) && k < |events|
    requires cuts == Times(events) && Ascending(cuts) && Fair(entries, cuts, charges)
    requires |Running(entries, events, k)| > 0
    requires Repeat(|Running(entries, events, k)|, q) == cuts[k] - Prev(cuts, k)
    ensures charges[k] == q
  {
    var n := |Running(entries, events, k)|;
    assert FairAt(entries, Prev(cuts, k), cuts[k], charges[k]);
    if Prev(cuts, k) < cuts[k] {
      RunningIsCovering(entries, events, k);
    } else {
      RepeatZero(n);
    }
    RepeatIsInjective(n, q, charges[k]);
  }

  // A running step covers every piece that has length.
  lemma RunningIsCharged(entries: seq<Target>, events: seq<Event>, cuts: seq<real>, charges: seq<real>, k: nat, t: Target)
    requires Complete(entries, events) && k < |events| && t in Running(entries, events, k)
    requires cuts == Times(events) && Ascending(cuts) && Fair(entries, cuts, charges)
    ensures ShareUpTo(cuts, charges, t, k + 1) == ShareUpTo(cuts, charges, t, k) + charges[k]
  {
    assert FairAt(entries, Prev(cuts, k), cuts[k], charges[k]);
    if Prev(cuts, k) < cuts[k] {
      RunningIsCovering(entries, events, k);
      assert t in Covering(entries, Prev(cuts, k), cuts[k]);
    }
  }

  lemma StoppedIsNotCharged(entries: seq<Target>, events: seq<Event>, cuts: seq<real>, charges: seq<real>, k: nat, t: Target)
    requires Complete(entries, events) && k < |events| && t in entries && Position(events, StopOf(t)) < k
    requires cuts == Times(events) && Ascending(cuts) && Fair(entries, cuts, charges)
    ensures ShareUpTo(cuts, charges, t, k + 1) == ShareUpTo(cuts, charges, t, k)
  {
    var j := Position(events, StopOf(t));
    assert cuts[j] == t.end && cuts[j] <= cuts[k - 1];
    NoShareAfterEnd(entries, cuts, charges, t, k);
  }

  // A stop event finds its step running exactly when the step does not end before it starts.
  lemma StopFindsStart(entries: seq<Target>, events: seq<Event>, k: nat, t: Target)
    requires Sorted(events) && Complete(entries, events)
    requires k < |events| && events[k].action == Stop && events[k].target == t
    ensures t in entries && events[k] == StopOf(t) && Position(events, StopOf(t)) == k
    ensures t in Running(entries, events, k) <==> t.start <= t.end
    ensures Running(entries, events, k + 1) == Running(entries, events, k) - {t}
  {
    assert OfEntry(entries, events[k]);
    assert Position(events, events[k]) == k;
    var i := Position(events, StartOf(t));
    assert i < k ==> Leq(events[i], events[k]);
    assert k < i ==> Leq(events[k], events[i]);
    OthersKeepRunning(entries, events, k);
  }

  lemma StartFindsNone(entries: seq<Target>, events: seq<Event>, k: nat, t: Target)
    requires Sorted(events) && Complete(entries, events)
    requires k < |events| && events[k].action == Start && events[k].target == t
    ensures t in entries && events[k] == StartOf(t) && Position(events, StartOf(t)) == k
    ensures t !in Running(entries, events, k)
    ensures t.start <= t.end ==> Running(entries, events, k + 1) == Running(entries, events, k) + {t}
    ensures t.start > t.end ==> Position(events, StopOf(t)) < k
  {
    assert OfEntry(entries, events[k]);
    assert Position(events, events[k]) == k;
    var j := Position(events, StopOf(t));
    assert j < k ==> Leq(events[j], events[k]);
    assert k < j ==> Leq(events[k], events[j]);
    OthersKeepRunning(entries, events, k);
  }

  lemma OthersKeepRunning(entries: seq<Target>, events: seq<Event>, k: nat)
    requires Complete(entries, events) && k < |events|
    ensures forall t :: t in entries && t != events[k].target ==>
              (t in Running(entries, events, k + 1) <==> t in Running(entries, events, k))
  {
    forall t | t in entries && t != events[k].target
      ensures t in Running(entries, events, k + 1) <==> t in Running(entries, events, k)
    {
      assert Position(events, StartOf(t)) != k && Position(events, StopOf(t)) != k;
    }
  }

  // ---------------------------------------------------------------- uncollected shares

  // What the running steps have been charged and not yet paid into the total.
  ghost function Uncollected(entries: seq<Target>, running: map<Target, real>, w: real): real {
    if entries == [] then 0.0
    else
      (if entries[0] in running then w - running[entries[0]] else 0.0)
      + Uncollected(entries[1..], running, w)
  }

  ghost function CountIn(entries: seq<Target>, s: set<Target>): nat {
    if entries == [] then 0 else (if entries[0] in s then 1 else 0) + CountIn(entries[1..], s)
  }

  lemma {:induction false} CountInIsCardinality(entries: seq<Target>, s: set<Target>)
    requires Distinct(entries) && forall t :: t in s ==> t in entries
    ensures CountIn(entries, s) == |s|
  {
    if entries == [] {
      assert s == {};
    } else {
      var rest, s' := entries[1..], s - {entries[0]};
      DistinctTail(entries);
      assert forall t :: t in s' ==> t in rest by {
        assert entries == [entries[0]] + rest;
      }
      CountInIsCardinality(rest, s');
      CountInFrame(rest, s, s');
    }
  }

  lemma {:induction false} CountInFrame(entries: seq<Target>, s: set<Target>, r: set<Target>)
    requires forall t :: t in entries ==> (t in s <==> t in r)
    ensures CountIn(entries, s) == CountIn(entries, r)
  {
    if entries != [] {
      CountInFrame(entries[1..], s, r);
    }
  }

  lemma {:induction false} UncollectedAdvance(entries: seq<Target>, running: map<Target, real>, w: real, d: real)
    ensures Uncollected(entries, running, w + d)
         == Uncollected(entries, running, w) + Repeat(CountIn(entries, running.Keys), d)
  {
    if entries != [] {
      UncollectedAdvance(entries[1..], running, w, d);
    }
  }

  lemma {:induction false} UncollectedFrame(entries: seq<Target>, r: map<Target, real>, s: map<Target, real>, w: real)
    requires forall t :: t in entries ==> (t in r <==> t in s) && (t in r ==> r[t] == s[t])
    ensures Uncollected(entries, r, w) == Uncollected(entries, s, w)
  {
    if entries != [] {
      UncollectedFrame(entries[1..], r, s, w);
    }
  }

  lemma {:induction false} UncollectedStart(entries: seq<Target>, running: map<Target, real>, w: real, t: Target)
    requires t !in running
    ensures Uncollected(entries, running[t := w], w) == Uncollected(entries, running, w)
  {
    if entries != [] {
      UncollectedStart(entries[1..], running, w, t);
    }
  }

  lemma {:induction false} UncollectedStop(entries: seq<Target>, running: map<Target, real>, w: real, t: Target)
    requires Distinct(entries) && t in entries && t in running
    ensures Uncollected(entries, running - {t}, w) == Uncollected(entries, running, w) - (w - running[t])
  {
    var rest := entries[1..];
    DistinctTail(entries);
    if entries[0] == t {
      UncollectedFrame(rest, running - {t}, running, w);
    } else {
      UncollectedStop(rest, running, w, t);
    }
  }

  // One advance of the clock pays out exactly the time that passed.
  lemma AdvanceConserves(entries: seq<Target>, running: map<Target, real>, w: real, q: real)
    requires Distinct(entries) && forall t :: t in running ==> t in entries
    ensures Uncollected(entries, running, w + q) == Uncollected(entries, running, w) + Repeat(|running|, q)
  {
    assert |running.Keys| == |running|;
    CountInIsCardinality(entries, running.Keys);
    UncollectedAdvance(entries, running, w, q);
  }

  // ---------------------------------------------------------------- the sweep itself

  // Running steps for which the accumulator does not stand exactly their share above their start
  // value. There never are any.
  ghost function Strays(cuts: seq<real>, charges: seq<real>, k: nat, running: map<Target, real>, w: real): set<Target>
    requires k <= |cuts| == |charges|
  {
    set t | t in running && w - running[t] != ShareUpTo(cuts, charges, t, k)
  }

  lemma AdvanceAccrues(entries: seq<Target>, events: seq<Event>, cuts: seq<real>, charges: seq<real>, k: nat,
                       running: map<Target, real>, w: real)
    requires Complete(entries, events) && k < |events| && running.Keys == Running(entries, events, k)
    requires cuts == Times(events) && Ascending(cuts) && Fair(entries, cuts, charges)
    requires Strays(cuts, charges, k, running, w) == {}
    ensures Strays(cuts, charges, k + 1, running, w + charges[k]) == {}
  {
    forall t | t in running
      ensures w + charges[k] - running[t] == ShareUpTo(cuts, charges, t, k + 1)
    {
      assert t !in Strays(cuts, charges, k, running, w);
      RunningIsCharged(entries, events, cuts, charges, k, t);
    }
  }

  // What is paid out plus what is still owed is the busy time so far.
  ghost predicate Conserved(entries: seq<Target>, cuts: seq<real>, k: nat,
                            running: map<Target, real>, w: real, total: real)
    requires k <= |cuts|
  {
    total + Uncollected(entries, running, w) == Busy(entries, cuts, k)
  }

  lemma AdvanceKeepsConserved(entries: seq<Target>, events: seq<Event>, cuts: seq<real>, k: nat,
                              running: map<Target, real>, w: real, total: real, q: real)
    requires Distinct(entries) && Complete(entries, events) && k < |events|
    requires running.Keys == Running(entries, events, k)
    requires cuts == Times(events) && Ascending(cuts)
    requires Conserved(entries, cuts, k, running, w, total)
    requires |running| > 0 ==> Repeat(|running|, q) == cuts[k] - Prev(cuts, k)
    ensures Conserved(entries, cuts, k + 1, running, w + q, total)
  {
    BusyStep(entries, events, k);
    AdvanceConserves(entries, running, w, q);
    assert |running| == |running.Keys|;
  }

  // The steps stopped so far hold their final share.
  ghost predicate Settled(entries: seq<Target>, events: seq<Event>, cuts: seq<real>, charges: seq<real>, k: nat)
    requires Complete(entries, events) && k <= |cuts| == |charges|
    reads entries`weightedDuration
  {
    forall t :: t in entries && Position(events, StopOf(t)) < k ==>
      t.start <= t.end && t.weightedDuration == ShareUpTo(cuts, charges, t, k)
  }

  lemma StartIsNotCharged(entries: seq<Target>, events: seq<Event>, cuts: seq<real>, charges: seq<real>, k: nat)
    requires Complete(entries, events) && k < |events| && events[k].action == Start
    requires cuts == Times(events) && Ascending(cuts) && Fair(entries, cuts, charges)
    ensures ShareUpTo(cuts, charges, events[k].target, k + 1) == 0.0
  {
    assert OfEntry(entries, events[k]);
    NoShareBeforeStart(entries, cuts, charges, events[k].target, k + 1);
  }

  lemma StartKeepsBalance(entries: seq<Target>, events: seq<Event>, cuts: seq<real>, charges: seq<real>, k: nat,
                          running: map<Target, real>, w: real, total: real, t: Target)
    requires Sorted(events) && Complete(entries, events)
    requires k < |events| && events[k].action == Start && events[k].target == t
    requires cuts == Times(events) && Ascending(cuts) && Fair(entries, cuts, charges)
    requires running.Keys == Running(entries, events, k) && t.start <= t.end
    requires Strays(cuts, charges, k + 1, running, w) == {} && Conserved(entries, cuts, k + 1, running, w, total)
    ensures running[t := w].Keys == Running(entries, events, k + 1)
    ensures Strays(cuts, charges, k + 1, running[t := w], w) == {}
    ensures Conserved(entries, cuts, k + 1, running[t := w], w, total)
  {
    StartFindsNone(entries, events, k, t);
    StartIsNotCharged(entries, events, cuts, charges, k);
    UncollectedStart(entries, running, w, t);
  }

  lemma StopKeepsBalance(entries: seq<Target>, events: seq<Event>, cuts: seq<real>, charges: seq<real>, k: nat,
                         running: map<Target, real>, w: real, total: real, t: Target, due: real)
    requires Distinct(entries) && Sorted(events) && Complete(entries, events)
    requires k < |events| == |cuts| == |charges| && events[k].action == Stop && events[k].target == t && t in running
    requires running.Keys == Running(entries, events, k) && due == w - running[t]
    requires Strays(cuts, charges, k + 1, running, w) == {} && Conserved(entries, cuts, k + 1, running, w, total)
    ensures (running - {t}).Keys == Running(entries, events, k + 1)
    ensures Strays(cuts, charges, k + 1, running - {t}, w) == {}
    ensures Conserved(entries, cuts, k + 1, running - {t}, w, total + due)
    ensures due == ShareUpTo(cuts, charges, t, k + 1)
  {
    StopFindsStart(entries, events, k, t);
    UncollectedStop(entries, running, w, t);
    assert t !in Strays(cuts, charges, k + 1, running, w);
    forall u | u in running - {t} ensures u !in Strays(cuts, charges, k + 1, running - {t}, w) {
      assert u !in Strays(cuts, charges, k + 1, running, w);
    }
  }

  lemma AdvanceKeepsBalance(entries: seq<Target>, events: seq<Event>, cuts: seq<real>, charges: seq<real>, k: nat,
                            running: map<Target, real>, w: real, total: real, q: real, w': real)
    requires Distinct(entries) && Complete(entries, events) && k < |events|
    requires cuts == Times(events) && Ascending(cuts) && Fair(entries, cuts, charges) && w' == w + q
    requires running.Keys == Running(entries, events, k)
    requires Strays(cuts, charges, k, running, w) == {} && Conserved(entries, cuts, k, running, w, total)
    requires |running| > 0 ==> Repeat(|running|, q) == cuts[k] - Prev(cuts, k)
    ensures Strays(cuts, charges, k + 1, running, w') == {} && Conserved(entries, cuts, k + 1, running, w', total)
  {
    AdvanceKeepsConserved(entries, events, cuts, k, running, w, total, q);
    if |running| > 0 {
      assert |running.Keys| == |running|;
      ChargeIsQuotient(entries, events, cuts, charges, k, q);
      AdvanceAccrues(entries, events, cuts, charges, k, running, w);
    }
  }

  // Splits d evenly among n steps.
  method Split(d: real, n: nat) returns (q: real)
    requires n > 0
    ensures Repeat(n, q) == d
  {
    q := d / n as real;
    QuotientRepeats(d, n);
  }

  lemma SettledAfterStart(entries: seq<Target>, events: seq<Event>, cuts: seq<real>, charges: seq<real>, k: nat)
    requires Sorted(events) && Complete(entries, events) && k < |events| && events[k].action == Start
    requires cuts == Times(events) && Ascending(cuts) && Fair(entries, cuts, charges)
    requires Settled(entries, events, cuts, charges, k)
    ensures Settled(entries, events, cuts, charges, k + 1)
    ensures events[k].target.start <= events[k].target.end
  {
    StartFindsNone(entries, events, k, events[k].target);
    forall t | t in entries && Position(events, StopOf(t)) < k + 1
      ensures t.start <= t.end && t.weightedDuration == ShareUpTo(cuts, charges, t, k + 1)
    {
      assert events[k] != StopOf(t);
      StoppedIsNotCharged(entries, events, cuts, charges, k, t);
    }
  }

  // A stop event settles its step.
  method Settle(entries: seq<Target>, events: seq<Event>, ghost cuts: seq<real>, ghost charges: seq<real>, k: nat,
                weightedDuration: real)
    requires Sorted(events) && Complete(entries, events) && k < |events| && events[k].action == Stop
    requires cuts == Times(events) && Ascending(cuts) && Fair(entries, cuts, charges)
    requires Settled(entries, events, cuts, charges, k)
    requires events[k].target.start <= events[k].target.end
    requires weightedDuration == ShareUpTo(cuts, charges, events[k].target, k + 1)
    modifies events[k].target`weightedDuration
    ensures Settled(entries, events, cuts, charges, k + 1)
  {
    events[k].target.SetWeightedDuration(weightedDuration);
    forall t | t in entries && Position(events, StopOf(t)) < k + 1
      ensures t.start <= t.end && t.weightedDuration == ShareUpTo(cuts, charges, t, k + 1)
    {
      if t != events[k].target {
        assert events[k] != StopOf(t);
        StoppedIsNotCharged(entries, events, cuts, charges, k, t);
      }
    }
  }

  // What the loop keeps before event k.
  ghost predicate Swept(entries: seq<Target>, events: seq<Event>, cuts: seq<real>, charges: seq<real>, k: nat,
                        running: map<Target, real>, w: real, total: real)
    requires Complete(entries, events) && k <= |events| == |cuts| == |charges|
    reads entries`weightedDuration
  {
    && running.Keys == Running(entries, events, k)
    && Strays(cuts, charges, k, running, w) == {}
    && Conserved(entries, cuts, k, running, w, total)
    && Settled(entries, events, cuts, charges, k)
  }

  // One event of the scan. A stop event must find its step running.
  method ProcessEvent(entries: seq<Target>, events: seq<Event>, ghost cuts: seq<real>, ghost charges: seq<real>, k: nat,
                      running: map<Target, real>, lastTime: real, lastWeighted: real, total: real)
    returns (ok: bool, running': map<Target, real>, w: real, total': real)
    requires Distinct(entries) && Sorted(events) && Complete(entries, events) && k < |events|
    requires cuts == Times(events) && |charges| == |cuts| && Ascending(cuts) && Fair(entries, cuts, charges)
    requires lastTime == Prev(cuts, k) && Swept(entries, events, cuts, charges, k, running, lastWeighted, total)
    modifies events[k].target`weightedDuration
    ensures events[k].target in entries
    ensures ok ==> Swept(entries, events, cuts, charges, k + 1, running', w, total')
    ensures !ok ==> events[k].target.end < events[k].target.start
  {
    var Event(time, action, target) := events[k];
    running', total' := running, total;
    var q := 0.0;
    if |running| > 0 {
      q := Split(time - lastTime, |running|);
    }
    w := lastWeighted + q;
    AdvanceKeepsBalance(entries, events, cuts, charges, k, running, lastWeighted, total, q, w);
    if action == Start {
      StartFindsNone(entries, events, k, target);
      SettledAfterStart(entries, events, cuts, charges, k);
      StartKeepsBalance(entries, events, cuts, charges, k, running, w, total, target);
      running' := running[target := w];
    } else {
      StopFindsStart(entries, events, k, target);
      if target !in running {
        return false, running, w, total;
      }
      var weightedDuration := w - running[target];
      StopKeepsBalance(entries, events, cuts, charges, k, running, w, total, target, weightedDuration);
      Settle(entries, events, cuts, charges, k, weightedDuration);
      total' := total + weightedDuration;
      running' := running - {target};
    }
    ok := true;
  }

  // Scans the events. Fails (a KeyError in the script) exactly when some step ends before it
  // starts. Otherwise every step gets its share and the shares add up to the busy time.
  method SweepEvents(entries: seq<Target>, events: seq<Event>, ghost cuts: seq<real>, ghost charges: seq<real>)
    returns (ok: bool, weightedTotal: real)
    requires entries != [] && Distinct(entries) && Sorted(events) && Complete(entries, events) && events != []
    requires cuts == Times(events) && |charges| == |cuts| && Ascending(cuts) && Fair(entries, cuts, charges)
    modifies entries`weightedDuration
    ensures ok <==> forall t :: t in entries ==> t.start <= t.end
    ensures ok ==> Settled(entries, events, cuts, charges, |cuts|)
    ensures ok ==> weightedTotal == Busy(entries, cuts, |cuts|)
  {
    var running: map<Target, real> := map[];
    var lastTime := events[0].time;
    var lastWeighted := 0.0;
    weightedTotal := 0.0;
    SweptAtTheStart(entries, events, cuts, charges);
    for k := 0 to |events|
      invariant lastTime == Prev(cuts, k)
      invariant Swept(entries, events, cuts, charges, k, running, lastWeighted, weightedTotal)
    {
      assert OfEntry(entries, events[k]);
      ok, running, lastWeighted, weightedTotal :=
        ProcessEvent(entries, events, cuts, charges, k, running, lastTime, lastWeighted, weightedTotal);
      if !ok {
        return;
      }
      lastTime := events[k].time;
    }
    SweptToTheEnd(entries, events, cuts, charges, running, lastWeighted, weightedTotal);
    ok := true;
  }

  // At the end nothing runs, everything is paid out, and every step has been stopped.
  lemma SweptToTheEnd(entries: seq<Target>, events: seq<Event>, cuts: seq<real>, charges: seq<real>,
                      running: map<Target, real>, w: real, total: real)
    requires Complete(entries, events) && |events| == |cuts| == |charges|
    requires Swept(entries, events, cuts, charges, |events|, running, w, total)
    ensures running == map[] && total == Busy(entries, cuts, |cuts|)
    ensures forall t :: t in entries ==> t.start <= t.end
  {
    assert running.Keys == {};
    UncollectedOfNone(entries, w);
    forall t | t in entries ensures t.start <= t.end {
      assert Position(events, StopOf(t)) < |events|;
    }
  }

  lemma SweptAtTheStart(entries: seq<Target>, events: seq<Event>, cuts: seq<real>, charges: seq<real>)
    requires Complete(entries, events) && |events| == |cuts| == |charges|
    ensures Swept(entries, events, cuts, charges, 0, map[], 0.0, 0.0)
  {
    UncollectedOfNone(entries, 0.0);
  }

  lemma UncollectedOfNone(entries: seq<Target>, w: real)
    ensures Uncollected(entries, map[], w) == 0.0
  {
  }
}
