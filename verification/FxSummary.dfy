// The summary derived after a run, compared with what the processes counted: for one process, and
// for any number of processes that shared the directory.
module FxSummary {
  import opened Decimal
  import opened Sequences
  import opened Sets
  import opened FxCapture
  import opened FxWorld
  import opened FxManifest
  import opened Options

  // ---------------------------------------------------------------- one process

  // With one process, all rows are its own.
  lemma {:induction false} LoneOwner(rows: seq<Row>)
    requires forall i :: 0 <= i < |rows| ==> rows[i].pid < 1
    ensures Own(rows, 0) == rows
  {
    if rows != [] {
      var n := |rows| - 1;
      LoneOwner(rows[..n]);
      assert rows == rows[..n] + [rows[n]];
    }
  }

  // What the files of a lone process say once it has made all its writes.
  lemma LoneFiles(cfg: Config, moves: seq<Move>)
    requires Quiet(Run(cfg, Start(1), moves))
    ensures var w := Run(cfg, Start(1), moves);
            && |w.procs| == 1 && Sound(cfg, w.procs[0].state, w.dir.manifest)
            && w.dir.layerRows == w.procs[0].state.layerEvents
  {
    var w := Run(cfg, Start(1), moves);
    RunAddsUp(cfg, 1, moves);
    RunKeepsProcs(cfg, Start(1), moves);
    QuietRows(cfg, w, 0);
    LoneOwner(w.dir.manifest);
    assert InFiles(w.dir, LayerEvents) == Total(w.procs, LayerEvents) == w.procs[0].state.layerEvents;
  }

  // The world of a lone process after it has exited.
  function Exited(cfg: Config, moves: seq<Move>): World {
    Run(cfg, Start(1), moves + [Save(0), Advance(0)])
  }

  // Any run of one process, ended by its write at exit. The counts derived from its files are its
  // own; the captured events and the counts per layer are too, exactly when there is no manifest
  // row at all or no forward raised after its event was captured.
  lemma SummaryDescribesRun(cfg: Config, moves: seq<Move>, metadata: Summary, r: Summary)
    requires Quiet(Run(cfg, Start(1), moves))
    requires Exited(cfg, moves).dir.file.Some? && Describes(metadata, Exited(cfg, moves).dir.file.value)
    requires Derived(metadata, Exited(cfg, moves).dir.manifest, Exited(cfg, moves).dir.layerRows, r)
    ensures var w := Exited(cfg, moves);
            && |w.procs| == 1
            && r.samples == w.procs[0].state.samples && r.traces == w.procs[0].state.traces
            && r.errors == w.procs[0].state.errors && r.layerEvents == w.procs[0].state.layerEvents
            && (Describes(r, w.procs[0].state) <==>
                  w.dir.manifest == [] || Lost(cfg, Start(1), moves, 0) == 0)
  {
    var w := Run(cfg, Start(1), moves);
    LoneFiles(cfg, moves);
    ExitLeavesOwnRecord(cfg, moves);
    CapturedIsSampledPlusLost(cfg, 1, moves, 0);
    DerivedDescribesProcess(cfg, w.procs[0].state, w.dir.manifest, w.procs[0].state, metadata, r);
  }

  // ---------------------------------------------------------------- two runs

  const TWO_EVENTS := Config({"decode"}, {0}, {}, 0)
  const SAMPLED := Forward(true, Some(1), Some(0), Some("decode"), None, false, false, false, false)
  const RAISING := SAMPLED.(forwardId := Some(2), forwardRaises := true)

  // A lone process between two forwards.
  function Idle(s: State, d: Dir, offered: seq<State>): World {
    World([Proc(s, [])], d, offered)
  }

  // A forward that raises after its capture writes nothing.
  lemma RaisingForward(s: State, d: Dir, offered: seq<State>)
    requires (2, 0) !in s.captured
    ensures Next(TWO_EVENTS, Idle(s, d, offered), Invoke(0, RAISING)) == Idle(Captured(s, (2, 0)), d, offered)
    ensures LosesNow(TWO_EVENTS, Idle(s, d, offered), Invoke(0, RAISING), 0)
  {
    assert ShouldTrace(TWO_EVENTS, s, (2, 0), "decode");
  }

  lemma StartIsIdle()
    ensures Start(1) == Idle(INITIAL, Dir([], 0, None), [])
  {
  }

  // One sampled forward and its four writes.
  const SAMPLE_RUN := [Invoke(0, SAMPLED)] + Steps(0, 4)

  lemma SampledForward() returns (s: State, d: Dir, offered: seq<State>)
    ensures Run(TWO_EVENTS, Start(1), SAMPLE_RUN) == Idle(s, d, offered)
    ensures s.captured == {(1, 0)} && d.manifest == [Row(0, (1, 0), "decode", true)]
  {
    var w := Run(TWO_EVENTS, Start(1), [Invoke(0, SAMPLED)]);
    StartIsIdle();
    assert [Invoke(0, SAMPLED)] == [] + [Invoke(0, SAMPLED)];
    RunOneMore(TWO_EVENTS, Start(1), [], Invoke(0, SAMPLED));
    var e := SampledEffect();
    assert w.procs == [Proc(e.state, e.actions)];
    StepsFlush(TWO_EVENTS, Start(1), [Invoke(0, SAMPLED)], 0);
    s := e.state;
    d, offered := FlushedIdle(w, e.state, e.actions);
  }

  // A lone process that has made its writes.
  lemma FlushedIdle(w: World, s: State, pending: seq<Action>) returns (d: Dir, offered: seq<State>)
    requires w.procs == [Proc(s, pending)]
    ensures Flush(w, 0) == Idle(s, d, offered) && d.manifest == w.dir.manifest + RowsOf(pending)
  {
    FlushPerformsAll(w, 0);
    PerformAllRows(w.dir, pending);
    d, offered := Flush(w, 0).dir, Flush(w, 0).offered;
  }

  lemma SampledEffect() returns (e: Effect)
    ensures e == LayerForward(TWO_EVENTS, INITIAL, 0, SAMPLED)
    ensures |e.actions| == 4 && RowsOf(e.actions) == [Row(0, (1, 0), "decode", true)] && e.state.captured == {(1, 0)}
  {
    e := LayerForward(TWO_EVENTS, INITIAL, 0, SAMPLED);
    assert ShouldTrace(TWO_EVENTS, INITIAL, (1, 0), "decode");
    RowsOfForward(TWO_EVENTS, INITIAL, 0, SAMPLED);
  }

  // After it, the event of a raising forward is missing from the rebuilt summary.
  lemma RaisingForwardIsLost(metadata: Summary, r: Summary)
    requires var w := Exited(TWO_EVENTS, SAMPLE_RUN + [Invoke(0, RAISING)]);
             && w.dir.file.Some? && Describes(metadata, w.dir.file.value)
             && Derived(metadata, w.dir.manifest, w.dir.layerRows, r)
    ensures var w := Exited(TWO_EVENTS, SAMPLE_RUN + [Invoke(0, RAISING)]);
            && |w.procs| == 1 && w.procs[0].state.captured == {(1, 0), (2, 0)} && |w.dir.manifest| == 1
            && !Describes(r, w.procs[0].state)
  {
    var s, d, offered := SampledForward();
    var all := SAMPLE_RUN + [Invoke(0, RAISING)];
    RunOneMore(TWO_EVENTS, Start(1), SAMPLE_RUN, Invoke(0, RAISING));
    RaisingForward(s, d, offered);
    assert all[..|SAMPLE_RUN|] == SAMPLE_RUN;
    assert Lost(TWO_EVENTS, Start(1), all, 0) > 0;
    ExitLeavesOwnRecord(TWO_EVENTS, all);
    SummaryDescribesRun(TWO_EVENTS, all, metadata, r);
  }

  // But if nothing was sampled, the record of the process is kept and is right.
  lemma RaisingForwardAlone(metadata: Summary, r: Summary)
    requires var w := Exited(TWO_EVENTS, [Invoke(0, RAISING)]);
             && w.dir.file.Some? && Describes(metadata, w.dir.file.value)
             && Derived(metadata, w.dir.manifest, w.dir.layerRows, r)
    ensures var w := Exited(TWO_EVENTS, [Invoke(0, RAISING)]);
            && |w.procs| == 1 && w.dir.manifest == [] && Describes(r, w.procs[0].state)
            && Lost(TWO_EVENTS, Start(1), [Invoke(0, RAISING)], 0) == 1
  {
    var moves := [Invoke(0, RAISING)];
    StartIsIdle();
    RaisingForward(INITIAL, Dir([], 0, None), []);
    assert moves[..0] == [];
    assert Run(TWO_EVENTS, Start(1), moves[..0]) == Start(1);
    ExitLeavesOwnRecord(TWO_EVENTS, moves);
    SummaryDescribesRun(TWO_EVENTS, moves, metadata, r);
  }

  // ---------------------------------------------------------------- any number of processes

  // How many rows each process wrote, in all and of one layer.
  function OwnCounts(rows: seq<Row>, n: nat): (ns: seq<nat>)
    ensures |ns| == n && forall p :: 0 <= p < n ==> ns[p] == |Own(rows, p)|
  {
    seq(n, p requires 0 <= p < n => |Own(rows, p)|)
  }

  function OwnLayerCounts(rows: seq<Row>, n: nat, layer: int): (ns: seq<nat>)
    ensures |ns| == n && forall p :: 0 <= p < n ==> ns[p] == CountLayer(Own(rows, p), layer)
  {
    seq(n, p requires 0 <= p < n => CountLayer(Own(rows, p), layer))
  }

  ghost predicate From(rows: seq<Row>, n: nat) {
    forall i :: 0 <= i < |rows| ==> rows[i].pid < n
  }

  // Every row belongs to one process.
  lemma {:induction false} RowsSplit(rows: seq<Row>, n: nat)
    requires From(rows, n)
    ensures |rows| == Sum(OwnCounts(rows, n))
  {
    if rows == [] {
      SumIsZero(OwnCounts(rows, n));
    } else {
      var k := |rows| - 1;
      var before, row := rows[..k], rows[k];
      RowsSplit(before, n);
      assert rows == before + [row];
      forall p | 0 <= p < n ensures |Own(rows, p)| == |Own(before, p)| + if p == row.pid then 1 else 0 {
        OwnOne(before, row, p);
      }
      SumRaised(OwnCounts(before, n), OwnCounts(rows, n), row.pid, 1);
    }
  }

  lemma {:induction false} LayerRowsSplit(rows: seq<Row>, n: nat, layer: int)
    requires From(rows, n)
    ensures CountLayer(rows, layer) == Sum(OwnLayerCounts(rows, n, layer))
  {
    if rows == [] {
      SumIsZero(OwnLayerCounts(rows, n, layer));
    } else {
      var k := |rows| - 1;
      var before, row := rows[..k], rows[k];
      LayerRowsSplit(before, n, layer);
      assert rows == before + [row];
      var hit := if row.key.1 == layer then 1 else 0;
      forall p | 0 <= p < n
        ensures CountLayer(Own(rows, p), layer) == CountLayer(Own(before, p), layer) + if p == row.pid then hit else 0
      {
        OwnLayerOneMore(before, row, p, layer);
      }
      SumRaised(OwnLayerCounts(before, n, layer), OwnLayerCounts(rows, n, layer), row.pid, hit);
    }
  }

  lemma OwnLayerOneMore(rows: seq<Row>, row: Row, p: nat, layer: int)
    ensures CountLayer(Own(rows + [row], p), layer)
         == CountLayer(Own(rows, p), layer) + if p == row.pid && row.key.1 == layer then 1 else 0
  {
    OwnOne(rows, row, p);
    if p == row.pid {
      CountLayerOneMore(Own(rows, p), row, layer);
    } else {
      assert Own(rows, p) + [] == Own(rows, p);
    }
  }

  lemma CountLayerOneMore(rows: seq<Row>, row: Row, layer: int)
    ensures CountLayer(rows + [row], layer) == CountLayer(rows, layer) + if row.key.1 == layer then 1 else 0
  {
    assert (rows + [row])[..|rows|] == rows;
  }

  lemma SumRaised(xs: seq<nat>, ys: seq<nat>, i: nat, d: nat)
    requires |xs| == |ys| && i < |xs|
    requires forall p :: 0 <= p < |xs| ==> ys[p] == xs[p] + if p == i then d else 0
    ensures Sum(ys) == Sum(xs) + d
  {
    SumUpdate(xs, i, xs[i] + d);
    assert ys == xs[i := xs[i] + d];
  }

  // The events that each process captured, and those of them that it sampled.
  function CapturedSets(procs: seq<Proc>): (ss: seq<set<Key>>)
    ensures |ss| == |procs| && forall p :: 0 <= p < |ss| ==> ss[p] == procs[p].state.captured
  {
    seq(|procs|, p requires 0 <= p < |procs| => procs[p].state.captured)
  }

  function SampledSets(rows: seq<Row>, n: nat): (ss: seq<set<Key>>)
    ensures |ss| == n && forall p :: 0 <= p < n ==> ss[p] == Keys(Own(rows, p))
  {
    seq(n, p requires 0 <= p < n => Keys(Own(rows, p)))
  }

  function LayerCounters(procs: seq<Proc>, layer: int): (ns: seq<nat>)
    ensures |ns| == |procs| && forall p :: 0 <= p < |ns| ==> ns[p] == CountFor(procs[p].state.byLayer, layer)
  {
    seq(|procs|, p requires 0 <= p < |procs| => CountFor(procs[p].state.byLayer, layer))
  }

  lemma {:induction false} OwnRows(rows: seq<Row>, pid: nat, row: Row)
    ensures row in Own(rows, pid) <==> row in rows && row.pid == pid
  {
    if rows != [] {
      var k := |rows| - 1;
      OwnRows(rows[..k], pid, row);
      assert rows == rows[..k] + [rows[k]];
    }
  }

  lemma KeysAreUnion(rows: seq<Row>, n: nat)
    requires From(rows, n)
    ensures Keys(rows) == Union(SampledSets(rows, n))
  {
    var ss := SampledSets(rows, n);
    forall k ensures k in Keys(rows) <==> k in Union(ss) {
      InUnion(ss, k);
      if k in Keys(rows) {
        var row :| row in rows && row.key == k;
        var i :| 0 <= i < |rows| && rows[i] == row;
        OwnRows(rows, row.pid, row);
        assert k in ss[row.pid];
      }
      if k in Union(ss) {
        var p :| 0 <= p < n && k in ss[p];
        var row :| row in Own(rows, p) && row.key == k;
        OwnRows(rows, p, row);
      }
    }
  }

  lemma {:induction false} EventIdsSize(keys: set<Key>)
    ensures |EventIds(keys)| == |keys|
  {
    if k :| k in keys {
      EventIdsSize(keys - {k});
      forall j | j in keys - {k} ensures EventId(j) != EventId(k) {
        if EventId(j) == EventId(k) {
          EventIdInjective(j, k);
        }
      }
      assert EventIds(keys) == EventIds(keys - {k}) + {EventId(k)};
    }
  }

  // One process: nothing lost means that all it captured was sampled, in every layer.
  lemma SampledAll(cfg: Config, s: State, rows: seq<Row>)
    requires Sound(cfg, s, rows)
    ensures Keys(rows) <= s.captured && |Keys(rows)| <= |s.captured|
    ensures s.samples == |s.captured| <==> Keys(rows) == s.captured
    ensures forall l :: CountLayer(rows, l) <= CountFor(s.byLayer, l)
    ensures Keys(rows) == s.captured <==> forall l :: CountLayer(rows, l) == CountFor(s.byLayer, l)
  {
    SoundCounts(cfg, s, rows);
    forall l
      ensures CountLayer(rows, l) <= CountFor(s.byLayer, l)
      ensures CountLayer(rows, l) == CountFor(s.byLayer, l) <==> OfLayer(Keys(rows), l) == OfLayer(s.captured, l)
    {
      CountLayerIsCardinality(rows, l);
      assert CountFor(s.byLayer, l) == |OfLayer(s.captured, l)|;
      SubsetCardinality(OfLayer(Keys(rows), l), OfLayer(s.captured, l));
    }
    if forall l :: CountLayer(rows, l) == CountFor(s.byLayer, l) {
      forall k | k in s.captured ensures k in Keys(rows) {
        assert CountLayer(rows, k.1) == CountFor(s.byLayer, k.1);
        assert k in OfLayer(s.captured, k.1);
      }
    }
  }

  ghost predicate NothingLost(cfg: Config, n: nat, moves: seq<Move>) {
    forall p :: 0 <= p < n ==> Lost(cfg, Start(n), moves, p) == 0
  }

  ghost predicate AllSampled(w: World) {
    forall p :: 0 <= p < |w.procs| ==> Keys(Own(w.dir.manifest, p)) == w.procs[p].state.captured
  }

  // A quiet world as any run of n processes leaves it.
  ghost predicate Finished(cfg: Config, n: nat, moves: seq<Move>, w: World) {
    w == Run(cfg, Start(n), moves) && Quiet(w)
  }

  lemma FinishedFacts(cfg: Config, n: nat, moves: seq<Move>, w: World)
    requires Finished(cfg, n, moves, w)
    ensures |w.procs| == n && From(w.dir.manifest, n)
    ensures forall p :: 0 <= p < n ==> Sound(cfg, w.procs[p].state, Own(w.dir.manifest, p))
    ensures AllSampled(w) <==> NothingLost(cfg, n, moves)
  {
    RunAddsUp(cfg, n, moves);
    RunKeepsProcs(cfg, Start(n), moves);
    forall p | 0 <= p < n
      ensures Sound(cfg, w.procs[p].state, Own(w.dir.manifest, p))
      ensures Keys(Own(w.dir.manifest, p)) == w.procs[p].state.captured <==> Lost(cfg, Start(n), moves, p) == 0
    {
      QuietRows(cfg, w, p);
      SampledAll(cfg, w.procs[p].state, Own(w.dir.manifest, p));
      CapturedIsSampledPlusLost(cfg, n, moves, p);
    }
  }

  // The metadata file holds the record of one process that captured all there was to capture: no
  // other process lost an event. This is what counts when there is no manifest row.
  ghost predicate OneCapturer(cfg: Config, n: nat, moves: seq<Move>, w: World)
    requires |w.procs| == n && w.dir.file.Some?
  {
    exists q :: 0 <= q < n && w.procs[q].state.captured == w.dir.file.value.captured
             && forall p :: 0 <= p < n && p != q ==> Lost(cfg, Start(n), moves, p) == 0
  }

  // When the derived counts are the sums over all processes.
  ghost predicate NothingMissing(cfg: Config, n: nat, moves: seq<Move>, w: World)
    requires |w.procs| == n && w.dir.file.Some?
  {
    if w.dir.manifest == [] then OneCapturer(cfg, n, moves, w) else NothingLost(cfg, n, moves)
  }

  // What the summarizer derives from the files of a finished run.
  ghost predicate Summarized(w: World, metadata: Summary, r: Summary) {
    && w.dir.file.Some? && Describes(metadata, w.dir.file.value)
    && Derived(metadata, w.dir.manifest, w.dir.layerRows, r)
  }

  // The derived counts per layer never exceed the sums of the processes' counters. They are those
  // sums exactly when no process lost an event or, if there is no manifest row, when the record in
  // the file is of the only process that did.
  lemma LayerCountsOfAll(cfg: Config, n: nat, moves: seq<Move>, w: World, metadata: Summary, r: Summary)
    requires Finished(cfg, n, moves, w) && Summarized(w, metadata, r)
    ensures HoldsBest(w.dir.file, w.offered) && |w.procs| == n
    ensures forall l :: CountText(r.capturedByLayer, IntText(l)) <= Sum(LayerCounters(w.procs, l))
    ensures (forall l :: CountText(r.capturedByLayer, IntText(l)) == Sum(LayerCounters(w.procs, l)))
       <==> NothingMissing(cfg, n, moves, w)
  {
    FinishedFacts(cfg, n, moves, w);
    FileHoldsBestOfRun(cfg, n, moves);
    if w.dir.manifest == [] {
      forall l ensures CountText(r.capturedByLayer, IntText(l)) == CountFor(w.dir.file.value.byLayer, l) {
        SameCountsAt(metadata.capturedByLayer, w.dir.file.value.byLayer, l);
      }
      RecordedLayers(cfg, n, moves, w);
    } else {
      RebuiltLayers(cfg, n, moves, w, r);
    }
  }

  lemma RebuiltLayers(cfg: Config, n: nat, moves: seq<Move>, w: World, m: Summary)
    requires Finished(cfg, n, moves, w) && Rebuilt(m, w.dir.manifest, w.dir.layerRows)
    ensures forall l :: CountText(m.capturedByLayer, IntText(l)) <= Sum(LayerCounters(w.procs, l))
    ensures (forall l :: CountText(m.capturedByLayer, IntText(l)) == Sum(LayerCounters(w.procs, l)))
       <==> NothingLost(cfg, n, moves)
  {
    var rows := w.dir.manifest;
    FinishedFacts(cfg, n, moves, w);
    forall l
      ensures CountText(m.capturedByLayer, IntText(l)) <= Sum(LayerCounters(w.procs, l))
      ensures CountText(m.capturedByLayer, IntText(l)) == Sum(LayerCounters(w.procs, l))
         <==> OwnLayerCounts(rows, n, l) == LayerCounters(w.procs, l)
    {
      CountLayerTextIsCountLayer(rows, l);
      LayerRowsSplit(rows, n, l);
      forall p | 0 <= p < n ensures CountLayer(Own(rows, p), l) <= CountFor(w.procs[p].state.byLayer, l) {
        SampledAll(cfg, w.procs[p].state, Own(rows, p));
      }
      SumMonotone(OwnLayerCounts(rows, n, l), LayerCounters(w.procs, l));
    }
    LayerwiseEqual(cfg, w, n);
  }

  // Whose record the file holds, and what it and the processes count per layer.
  lemma RecordIsOf(cfg: Config, n: nat, moves: seq<Move>, w: World) returns (q: nat)
    requires Finished(cfg, n, moves, w) && w.dir.file.Some?
    ensures |w.procs| == n && q < n && w.dir.file.value.captured <= w.procs[q].state.captured
    ensures SoundLayers(cfg, w.dir.file.value.captured, w.dir.file.value.byLayer)
    ensures forall p :: 0 <= p < n ==> SoundLayers(cfg, w.procs[p].state.captured, w.procs[p].state.byLayer)
  {
    FinishedFacts(cfg, n, moves, w);
    FileHoldsBestOfRun(cfg, n, moves);
    OffersAreStates(cfg, n, moves);
    assert FromSome(cfg, w.dir.file.value, w.procs);
    q :| 0 <= q < n && Earlier(cfg, w.dir.file.value, w.procs[q].state);
    forall p | 0 <= p < n ensures SoundLayers(cfg, w.procs[p].state.captured, w.procs[p].state.byLayer) {
      assert Sound(cfg, w.procs[p].state, Own(w.dir.manifest, p));
    }
  }

  // Without rows nothing was sampled, so what a process captured it lost.
  lemma CapturedIsLost(cfg: Config, n: nat, moves: seq<Move>, w: World, p: nat)
    requires Finished(cfg, n, moves, w) && w.dir.manifest == [] && p < n
    ensures |w.procs| == n && (w.procs[p].state.captured == {} <==> Lost(cfg, Start(n), moves, p) == 0)
  {
    FinishedFacts(cfg, n, moves, w);
    CapturedIsSampledPlusLost(cfg, n, moves, p);
    assert Sound(cfg, w.procs[p].state, Own(w.dir.manifest, p));
  }

  // All that was captured is in the record, and all others captured nothing.
  ghost predicate OnlyOne(captured: seq<set<Key>>, record: set<Key>) {
    exists q :: 0 <= q < |captured| && captured[q] == record
             && forall p :: 0 <= p < |captured| && p != q ==> captured[p] == {}
  }

  lemma OneCapturerIs(cfg: Config, n: nat, moves: seq<Move>, w: World)
    requires Finished(cfg, n, moves, w) && w.dir.manifest == [] && w.dir.file.Some?
    ensures |w.procs| == n
    ensures OneCapturer(cfg, n, moves, w) <==> OnlyOne(CapturedSets(w.procs), w.dir.file.value.captured)
  {
    RunKeepsProcs(cfg, Start(n), moves);
    forall p | 0 <= p < n ensures w.procs[p].state.captured == {} <==> Lost(cfg, Start(n), moves, p) == 0 {
      CapturedIsLost(cfg, n, moves, w, p);
    }
    var captured := CapturedSets(w.procs);
    if OneCapturer(cfg, n, moves, w) {
      var q :| 0 <= q < n && w.procs[q].state.captured == w.dir.file.value.captured
            && forall p :: 0 <= p < n && p != q ==> Lost(cfg, Start(n), moves, p) == 0;
      assert captured[q] == w.dir.file.value.captured;
    }
    if OnlyOne(captured, w.dir.file.value.captured) {
      var q :| 0 <= q < |captured| && captured[q] == w.dir.file.value.captured
            && forall p :: 0 <= p < |captured| && p != q ==> captured[p] == {};
      assert w.procs[q].state.captured == w.dir.file.value.captured;
      forall p | 0 <= p < n && p != q ensures Lost(cfg, Start(n), moves, p) == 0 {
        assert captured[p] == {};
      }
    }
  }

  // A record of some of what process q captured has the size of all captures exactly if it is all.
  lemma RecordSize(captured: seq<set<Key>>, record: set<Key>, q: nat)
    requires q < |captured| && record <= captured[q]
    ensures |record| <= Sum(Sizes(captured))
    ensures |record| == Sum(Sizes(captured)) <==> OnlyOne(captured, record)
  {
    SubsetCardinality(record, captured[q]);
    SumAtLeast(Sizes(captured), q);
    if |record| == Sum(Sizes(captured)) {
      assert captured[q] == record;
      forall p | 0 <= p < |captured| && p != q ensures captured[p] == {} {
        assert Sizes(captured)[p] == 0;
      }
    }
    if OnlyOne(captured, record) {
      var k :| 0 <= k < |captured| && captured[k] == record
            && forall p :: 0 <= p < |captured| && p != k ==> captured[p] == {};
      SumAtLeast(Sizes(captured), k);
    }
  }

  ghost function LayerSets(captured: seq<set<Key>>, layer: int): (ss: seq<set<Key>>)
    ensures |ss| == |captured| && forall p :: 0 <= p < |ss| ==> ss[p] == OfLayer(captured[p], layer)
  {
    seq(|captured|, p requires 0 <= p < |captured| => OfLayer(captured[p], layer))
  }

  lemma RecordLayer(captured: seq<set<Key>>, record: set<Key>, q: nat, l: int)
    requires q < |captured| && record <= captured[q]
    ensures |OfLayer(record, l)| <= Sum(Sizes(LayerSets(captured, l)))
    ensures OnlyOne(captured, record) ==> |OfLayer(record, l)| == Sum(Sizes(LayerSets(captured, l)))
  {
    var ss := LayerSets(captured, l);
    assert OfLayer(record, l) <= ss[q];
    RecordSize(ss, OfLayer(record, l), q);
    if OnlyOne(captured, record) {
      var k :| 0 <= k < |captured| && captured[k] == record
            && forall p :: 0 <= p < |captured| && p != k ==> captured[p] == {};
      assert ss[k] == OfLayer(record, l);
      forall p | 0 <= p < |ss| && p != k ensures ss[p] == {} {
        assert captured[p] == {};
      }
    }
  }

  // The same, layer by layer.
  lemma RecordLayers(captured: seq<set<Key>>, record: set<Key>, q: nat)
    requires q < |captured| && record <= captured[q]
    ensures forall l :: |OfLayer(record, l)| <= Sum(Sizes(LayerSets(captured, l)))
    ensures (forall l :: |OfLayer(record, l)| == Sum(Sizes(LayerSets(captured, l)))) <==> OnlyOne(captured, record)
  {
    forall l
      ensures |OfLayer(record, l)| <= Sum(Sizes(LayerSets(captured, l)))
      ensures OnlyOne(captured, record) ==> |OfLayer(record, l)| == Sum(Sizes(LayerSets(captured, l)))
    {
      RecordLayer(captured, record, q, l);
    }
    if forall l :: |OfLayer(record, l)| == Sum(Sizes(LayerSets(captured, l))) {
      forall key | key in captured[q] ensures key in record {
        EventInRecord(captured, record, q, q, key);
      }
      assert captured[q] == record;
      forall p | 0 <= p < |captured| && p != q ensures captured[p] == {} {
        if captured[p] != {} {
          var key :| key in captured[p];
          EventInRecord(captured, record, q, p, key);
          assert false;
        }
      }
    }
  }

  lemma EventInRecord(captured: seq<set<Key>>, record: set<Key>, q: nat, p: nat, key: Key)
    requires q < |captured| && record <= captured[q] && p < |captured| && key in captured[p]
    requires |OfLayer(record, key.1)| == Sum(Sizes(LayerSets(captured, key.1)))
    ensures p == q && key in record
  {
    var ss := LayerSets(captured, key.1);
    SubsetCardinality(OfLayer(record, key.1), ss[q]);
    SumAtLeast(Sizes(ss), q);
    assert key in ss[p] && Sizes(ss)[p] > 0;
  }

  lemma RecordedLayers(cfg: Config, n: nat, moves: seq<Move>, w: World)
    requires Finished(cfg, n, moves, w) && w.dir.manifest == [] && w.dir.file.Some?
    ensures |w.procs| == n
    ensures forall l :: CountFor(w.dir.file.value.byLayer, l) <= Sum(LayerCounters(w.procs, l))
    ensures (forall l :: CountFor(w.dir.file.value.byLayer, l) == Sum(LayerCounters(w.procs, l)))
       <==> OneCapturer(cfg, n, moves, w)
  {
    var f, captured := w.dir.file.value, CapturedSets(w.procs);
    var q := RecordIsOf(cfg, n, moves, w);
    forall l
      ensures CountFor(f.byLayer, l) == |OfLayer(f.captured, l)|
      ensures LayerCounters(w.procs, l) == Sizes(LayerSets(captured, l))
    {
      forall p | 0 <= p < n ensures CountFor(w.procs[p].state.byLayer, l) == |OfLayer(captured[p], l)| {
        assert SoundLayers(cfg, w.procs[p].state.captured, w.procs[p].state.byLayer);
      }
    }
    RecordLayers(captured, f.captured, q);
    OneCapturerIs(cfg, n, moves, w);
  }

  lemma LayerwiseEqual(cfg: Config, w: World, n: nat)
    requires |w.procs| == n
    requires forall p :: 0 <= p < n ==> Sound(cfg, w.procs[p].state, Own(w.dir.manifest, p))
    ensures (forall l :: OwnLayerCounts(w.dir.manifest, n, l) == LayerCounters(w.procs, l)) <==> AllSampled(w)
  {
    var rows := w.dir.manifest;
    if forall l :: OwnLayerCounts(rows, n, l) == LayerCounters(w.procs, l) {
      forall p | 0 <= p < n ensures Keys(Own(rows, p)) == w.procs[p].state.captured {
        forall l ensures CountLayer(Own(rows, p), l) == CountFor(w.procs[p].state.byLayer, l) {
          assert OwnLayerCounts(rows, n, l)[p] == LayerCounters(w.procs, l)[p];
        }
        SampledAll(cfg, w.procs[p].state, Own(rows, p));
      }
    }
    if AllSampled(w) {
      forall l ensures OwnLayerCounts(rows, n, l) == LayerCounters(w.procs, l) {
        forall p | 0 <= p < n ensures CountLayer(Own(rows, p), l) == CountFor(w.procs[p].state.byLayer, l) {
          SampledAll(cfg, w.procs[p].state, Own(rows, p));
        }
      }
    }
  }

  // The derived list of events is the union of what the processes sampled or, if there is no
  // manifest row, that of the best record. It is as long as their captures together exactly when
  // nothing is missing as above and, for a manifest with rows, no event was captured twice.
  lemma EventsOfAll(cfg: Config, n: nat, moves: seq<Move>, w: World, metadata: Summary, r: Summary)
    requires Finished(cfg, n, moves, w) && Summarized(w, metadata, r)
    ensures HoldsBest(w.dir.file, w.offered) && |w.procs| == n
    ensures r.capturedEvents
         == EventIds(if w.dir.manifest == [] then w.dir.file.value.captured else Union(SampledSets(w.dir.manifest, n)))
    ensures |r.capturedEvents| <= Sum(Sizes(CapturedSets(w.procs)))
    ensures |r.capturedEvents| == Sum(Sizes(CapturedSets(w.procs)))
       <==> NothingMissing(cfg, n, moves, w) && (w.dir.manifest != [] ==> Disjoint(CapturedSets(w.procs)))
  {
    FinishedFacts(cfg, n, moves, w);
    FileHoldsBestOfRun(cfg, n, moves);
    if w.dir.manifest == [] {
      var q := RecordIsOf(cfg, n, moves, w);
      EventIdsSize(w.dir.file.value.captured);
      RecordSize(CapturedSets(w.procs), w.dir.file.value.captured, q);
      OneCapturerIs(cfg, n, moves, w);
    } else {
      RebuiltEvents(cfg, n, moves, w, r);
    }
  }

  lemma RebuiltEvents(cfg: Config, n: nat, moves: seq<Move>, w: World, m: Summary)
    requires Finished(cfg, n, moves, w) && Rebuilt(m, w.dir.manifest, w.dir.layerRows)
    ensures m.capturedEvents == EventIds(Union(SampledSets(w.dir.manifest, n)))
    ensures |m.capturedEvents| <= m.samples <= Sum(Sizes(CapturedSets(w.procs)))
    ensures |m.capturedEvents| == Sum(Sizes(CapturedSets(w.procs)))
       <==> NothingLost(cfg, n, moves) && Disjoint(CapturedSets(w.procs))
  {
    var rows := w.dir.manifest;
    var sampled, captured := SampledSets(rows, n), CapturedSets(w.procs);
    FinishedFacts(cfg, n, moves, w);
    KeysAreUnion(rows, n);
    EventIdsSize(Keys(rows));
    UnionSize(sampled);
    SampledSizes(cfg, w, n, sampled, captured);
  }

  lemma SampledSizes(cfg: Config, w: World, n: nat, sampled: seq<set<Key>>, captured: seq<set<Key>>)
    requires |w.procs| == n && From(w.dir.manifest, n)
    requires forall p :: 0 <= p < n ==> Sound(cfg, w.procs[p].state, Own(w.dir.manifest, p))
    requires sampled == SampledSets(w.dir.manifest, n) && captured == CapturedSets(w.procs)
    ensures Sum(Sizes(sampled)) == |w.dir.manifest| <= Sum(Sizes(captured))
    ensures Sum(Sizes(sampled)) == Sum(Sizes(captured)) <==> AllSampled(w)
    ensures AllSampled(w) <==> sampled == captured
  {
    var rows := w.dir.manifest;
    RowsSplit(rows, n);
    forall p | 0 <= p < n ensures sampled[p] <= captured[p] && |sampled[p]| == |Own(rows, p)| {
      SoundCounts(cfg, w.procs[p].state, Own(rows, p));
    }
    assert Sizes(sampled) == OwnCounts(rows, n);
    SubsetSizes(sampled, captured);
    SameSets(w, n, sampled, captured);
  }

  lemma SameSets(w: World, n: nat, sampled: seq<set<Key>>, captured: seq<set<Key>>)
    requires |w.procs| == n
    requires sampled == SampledSets(w.dir.manifest, n) && captured == CapturedSets(w.procs)
    ensures AllSampled(w) <==> sampled == captured
  {
    if AllSampled(w) {
      forall p | 0 <= p < n ensures sampled[p] == captured[p] {
        assert Keys(Own(w.dir.manifest, p)) == w.procs[p].state.captured;
      }
    } else {
      var p :| 0 <= p < n && Keys(Own(w.dir.manifest, p)) != w.procs[p].state.captured;
      assert sampled[p] != captured[p];
    }
  }

  // Two processes, one forward that raises, and the exit of its process: an event is lost, yet
  // nothing is missing.
  lemma LostButRecorded(w: World, metadata: Summary, r: Summary)
    requires w == Run(TWO_EVENTS, Start(2), [Invoke(0, RAISING), Save(0), Advance(0)]) && Summarized(w, metadata, r)
    ensures |w.procs| == 2 && w.dir.manifest == [] && !NothingLost(TWO_EVENTS, 2, [Invoke(0, RAISING), Save(0), Advance(0)])
    ensures forall l :: CountText(r.capturedByLayer, IntText(l)) == Sum(LayerCounters(w.procs, l))
  {
    var a, b, c := Invoke(0, RAISING), Save(0), Advance(0);
    var s := Captured(INITIAL, (2, 0));
    assert ShouldTrace(TWO_EVENTS, INITIAL, (2, 0), "decode");
    var w1 := Next(TWO_EVENTS, Start(2), a);
    assert w1.procs == [Proc(s, []), Proc(INITIAL, [])] && w1.dir == Dir([], 0, None);
    var w2 := Next(TWO_EVENTS, w1, b);
    assert w2.procs == [Proc(s, [Put(s)]), Proc(INITIAL, [])] && w2.dir == w1.dir;
    var w3 := Next(TWO_EVENTS, w2, c);
    assert [Put(s)][1..] == [];
    assert w3.procs == [Proc(s, []), Proc(INITIAL, [])] && w3.dir == Dir([], 0, Some(s));
    ThreeMoves(TWO_EVENTS, Start(2), a, b, c);
    assert Lost(TWO_EVENTS, Start(2), [a, b, c], 0) == 1 && Lost(TWO_EVENTS, Start(2), [a, b, c], 1) == 0;
    LayerCountsOfAll(TWO_EVENTS, 2, [a, b, c], w, metadata, r);
    assert w.procs[0].state.captured == w.dir.file.value.captured;
  }

  lemma ThreeMoves(cfg: Config, w: World, a: Move, b: Move, c: Move)
    ensures Run(cfg, w, [a, b, c]) == Next(cfg, Next(cfg, Next(cfg, w, a), b), c)
    ensures forall p :: Lost(cfg, w, [a, b, c], p) ==
              (if LosesNow(cfg, w, a, p) then 1 else 0)
              + (if LosesNow(cfg, Next(cfg, w, a), b, p) then 1 else 0)
              + (if LosesNow(cfg, Next(cfg, Next(cfg, w, a), b), c, p) then 1 else 0)
  {
    assert [a, b, c][..2] == [a, b] && [a, b][..1] == [a] && [a][..0] == [];
    assert Run(cfg, w, []) == w;
    assert Run(cfg, w, [a]) == Next(cfg, w, a);
    assert Run(cfg, w, [a, b]) == Next(cfg, Next(cfg, w, a), b);
    forall p ensures Lost(cfg, w, [a, b], p)
      == (if LosesNow(cfg, w, a, p) then 1 else 0) + (if LosesNow(cfg, Next(cfg, w, a), b, p) then 1 else 0)
    {
      assert Lost(cfg, w, [a], p) == if LosesNow(cfg, w, a, p) then 1 else 0;
    }
  }
}
