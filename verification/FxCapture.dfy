// Selected-layer capture: which layer forwards are sampled, the counters kept about them, and
// the files (manifest, layer events, metadata) they are written to. A process is one State; the
// trace directory is shared by all worker processes.
module FxCapture {
  import opened Options
  import opened Sets

  // (forward id, layer id)
  type Key = (int, int)

  // The settings read from the environment.
  datatype Config = Config(phases: set<string>, anyLayers: set<int>, eventKeys: set<Key>, maxPerLayer: int)

  datatype State = State(
    captured: set<Key>,
    byLayer: map<int, nat>,
    layerEvents: nat,
    samples: nat,
    traces: nat,
    errors: nat)

  const INITIAL := State({}, map[], 0, 0, 0, 0)

  datatype Row = Row(pid: nat, key: Key, phase: string, ok: bool)

  // One call of a wrapped layer forward, with everything that can go wrong in it.
  datatype Forward = Forward(
    armed: bool,
    forwardId: Option<int>,
    layerId: Option<int>,
    phase: Option<string>,
    qLen: Option<nat>,
    snapshotRaises: bool,
    forwardRaises: bool,
    traceRaises: bool,
    strict: bool)

  // `_safe_int(...) or -1`: an absent id and the id 0 both become -1.
  function ForwardKey(c: Forward): int {
    if c.forwardId == None || c.forwardId == Some(0) then -1 else c.forwardId.value
  }

  function PhaseOf(c: Forward): string {
    var phase := if c.phase == None || c.phase == Some("") then "unknown" else c.phase.value;
    if phase == "unknown" && c.qLen.Some? then (if c.qLen.value > 1 then "prefill_chunk" else "decode") else phase
  }

  predicate PhaseWanted(cfg: Config, phase: string) {
    phase in cfg.phases || "*" in cfg.phases
  }

  predicate Targeted(cfg: Config, key: Key) {
    if cfg.eventKeys != {} then key in cfg.eventKeys else key.1 in cfg.anyLayers
  }

  function CountFor(byLayer: map<int, nat>, layer: int): nat {
    if layer in byLayer then byLayer[layer] else 0
  }

  predicate ShouldTrace(cfg: Config, s: State, key: Key, phase: string) {
    if !PhaseWanted(cfg, phase) then false
    else if cfg.anyLayers == {} && cfg.eventKeys == {} then false
    else if !Targeted(cfg, key) then false
    else if cfg.maxPerLayer > 0 && CountFor(s.byLayer, key.1) >= cfg.maxPerLayer then false
    else key !in s.captured
  }

  function Captured(s: State, key: Key): State {
    s.(captured := s.captured + {key}, byLayer := s.byLayer[key.1 := CountFor(s.byLayer, key.1) + 1])
  }

  function Traced(s: State, ok: bool): State {
    s.(samples := s.samples + 1,
       traces := s.traces + (if ok then 1 else 0),
       errors := s.errors + (if ok then 0 else 1))
  }

  function Recorded(s: State): State {
    s.(layerEvents := s.layerEvents + 1)
  }

  // One write to the shared trace directory.
  datatype Action =
    | AppendRow(row: Row)        // to the manifest
    | AppendLayer                // to the layer events
    | Put(state: State)          // one read-compare-replace of the metadata file

  // What one call does: the new state, and the writes it makes, in order.
  datatype Effect = Effect(state: State, actions: seq<Action>, raised: bool)

  // A forward that matched: snapshot, capture, run, then trace.
  function MatchedForward(s: State, pid: nat, c: Forward, key: Key, phase: string): Effect {
    if c.snapshotRaises then Effect(s, [], true)
    else if c.forwardRaises then Effect(Captured(s, key), [], true)
    else
      var s1 := Traced(Captured(s, key), !c.traceRaises);
      var row := Row(pid, key, phase, !c.traceRaises);
      if c.traceRaises && c.strict then Effect(s1, [AppendRow(row), Put(s1)], true)
      else Effect(Recorded(s1), [AppendRow(row), Put(s1), AppendLayer, Put(Recorded(s1))], false)
  }

  function LayerForward(cfg: Config, s: State, pid: nat, c: Forward): Effect {
    if !c.armed then Effect(s, [], c.forwardRaises)
    else
      var phase := PhaseOf(c);
      if c.layerId.Some? && ShouldTrace(cfg, s, (ForwardKey(c), c.layerId.value), phase) then
        MatchedForward(s, pid, c, (ForwardKey(c), c.layerId.value), phase)
      else if c.forwardRaises then Effect(s, [], true)
      else Effect(Recorded(s), [AppendLayer, Put(Recorded(s))], false)
  }

  // The manifest rows among some writes.
  function RowsOf(actions: seq<Action>): seq<Row> {
    if actions == [] then []
    else (if actions[0].AppendRow? then [actions[0].row] else []) + RowsOf(actions[1..])
  }

  // What the writes of a forward amount to.
  lemma RowsOfForward(cfg: Config, s: State, pid: nat, c: Forward)
    ensures var e := LayerForward(cfg, s, pid, c);
            RowsOf(e.actions) == if e.actions != [] && e.actions[0].AppendRow? then [e.actions[0].row] else []
  {
    var actions := LayerForward(cfg, s, pid, c).actions;
    if |actions| > 0 {
      assert |actions| == 2 || |actions| == 4;
      assert RowsOf(actions[1..]) == [] by {
        NoRows(actions[1..]);
      }
    }
  }

  lemma {:induction false} NoRows(actions: seq<Action>)
    requires forall i :: 0 <= i < |actions| ==> !actions[i].AppendRow?
    ensures RowsOf(actions) == []
  {
    if actions != [] {
      NoRows(actions[1..]);
    }
  }

  // ---------------------------------------------------------------- what one process keeps

  ghost function OfLayer(captured: set<Key>, layer: int): set<Key> {
    set k | k in captured && k.1 == layer
  }

  function Keys(rows: seq<Row>): set<Key> {
    set r | r in rows :: r.key
  }

  function CountOk(rows: seq<Row>, ok: bool): nat {
    if rows == [] then 0 else CountOk(rows[..|rows| - 1], ok) + if rows[|rows| - 1].ok == ok then 1 else 0
  }

  // The per-layer counter counts the captured events of the layer and respects the cap, and
  // only targeted events are captured.
  ghost predicate SoundLayers(cfg: Config, captured: set<Key>, byLayer: map<int, nat>) {
    && (forall l :: CountFor(byLayer, l) == |OfLayer(captured, l)|)
    && (forall l :: l in byLayer ==> byLayer[l] > 0)
    && (cfg.maxPerLayer > 0 ==> forall l :: |OfLayer(captured, l)| <= cfg.maxPerLayer)
    && (forall k :: k in captured ==> Targeted(cfg, k))
  }

  // Every sample is one manifest row, of a captured event, in a wanted phase.
  ghost predicate SoundRows(cfg: Config, s: State, rows: seq<Row>) {
    && s.samples == |rows| && s.traces == CountOk(rows, true) && s.errors == CountOk(rows, false)
    && Keys(rows) <= s.captured && |Keys(rows)| == |rows|
    && (forall i :: 0 <= i < |rows| ==> PhaseWanted(cfg, rows[i].phase))
  }

  // rows: the manifest rows this process has written.
  ghost predicate Sound(cfg: Config, s: State, rows: seq<Row>) {
    SoundLayers(cfg, s.captured, s.byLayer) && SoundRows(cfg, s, rows)
  }

  lemma SoundInitially(cfg: Config)
    ensures Sound(cfg, INITIAL, [])
  {
    assert forall l :: OfLayer({}, l) == {};
    assert Keys([]) == {};
  }

  lemma {:induction false} CountsSplit(rows: seq<Row>)
    ensures CountOk(rows, true) + CountOk(rows, false) == |rows|
  {
    if rows != [] {
      CountsSplit(rows[..|rows| - 1]);
    }
  }

  // ok + error = samples <= captured.
  lemma SoundCounts(cfg: Config, s: State, rows: seq<Row>)
    requires Sound(cfg, s, rows)
    ensures s.traces + s.errors == s.samples <= |s.captured|
    ensures s.samples == |s.captured| <==> Keys(rows) == s.captured
  {
    CountsSplit(rows);
    SubsetCardinality(Keys(rows), s.captured);
  }

  lemma CaptureKeepsLayers(cfg: Config, s: State, key: Key, phase: string)
    requires SoundLayers(cfg, s.captured, s.byLayer) && ShouldTrace(cfg, s, key, phase)
    ensures SoundLayers(cfg, Captured(s, key).captured, Captured(s, key).byLayer)
  {
    var s' := Captured(s, key);
    forall l ensures CountFor(s'.byLayer, l) == |OfLayer(s'.captured, l)|
             ensures cfg.maxPerLayer > 0 ==> |OfLayer(s'.captured, l)| <= cfg.maxPerLayer
    {
      OfLayerOneMore(s.captured, key, l);
    }
  }

  lemma OfLayerOneMore(captured: set<Key>, key: Key, layer: int)
    requires key !in captured
    ensures |OfLayer(captured + {key}, layer)| == |OfLayer(captured, layer)| + if layer == key.1 then 1 else 0
  {
    if layer == key.1 {
      assert OfLayer(captured + {key}, layer) == OfLayer(captured, layer) + {key};
    } else {
      assert OfLayer(captured + {key}, layer) == OfLayer(captured, layer);
    }
  }

  lemma CountOkOneMore(rows: seq<Row>, row: Row, ok: bool)
    ensures CountOk(rows + [row], ok) == CountOk(rows, ok) + if row.ok == ok then 1 else 0
  {
    assert (rows + [row])[..|rows|] == rows;
  }

  // The rows with that outcome.
  function Positions(rows: seq<Row>, ok: bool): set<nat> {
    set i: nat | i < |rows| && rows[i].ok == ok
  }

  lemma PositionsOneMore(rows: seq<Row>, row: Row, ok: bool)
    ensures |Positions(rows + [row], ok)| == |Positions(rows, ok)| + if row.ok == ok then 1 else 0
  {
    var more, n := rows + [row], |rows|;
    if row.ok == ok {
      assert Positions(more, ok) == Positions(rows, ok) + {n};
    } else {
      assert Positions(more, ok) == Positions(rows, ok);
    }
  }

  lemma {:induction false} CountOkIs(rows: seq<Row>, ok: bool)
    ensures CountOk(rows, ok) == |Positions(rows, ok)|
  {
    if rows != [] {
      var n := |rows| - 1;
      CountOkIs(rows[..n], ok);
      PositionsOneMore(rows[..n], rows[n], ok);
      assert rows == rows[..n] + [rows[n]];
    }
  }

  lemma KeysOneMore(rows: seq<Row>, row: Row)
    ensures Keys(rows + [row]) == Keys(rows) + {row.key}
  {
    assert row in rows + [row];
  }

  lemma TraceKeepsRows(cfg: Config, s: State, rows: seq<Row>, row: Row)
    requires SoundRows(cfg, s, rows)
    requires row.key in s.captured && row.key !in Keys(rows) && PhaseWanted(cfg, row.phase)
    ensures SoundRows(cfg, Traced(s, row.ok), rows + [row])
  {
    CountOkOneMore(rows, row, true);
    CountOkOneMore(rows, row, false);
    KeysOneMore(rows, row);
  }

  // Every call keeps a sound process sound, whatever raises in it.
  lemma ForwardKeepsSound(cfg: Config, s: State, rows: seq<Row>, pid: nat, c: Forward)
    requires Sound(cfg, s, rows)
    ensures var e := LayerForward(cfg, s, pid, c);
            Sound(cfg, e.state, rows + RowsOf(e.actions))
  {
    assert rows + [] == rows;
    RowsOfForward(cfg, s, pid, c);
    if c.armed && c.layerId.Some? {
      var key := (ForwardKey(c), c.layerId.value);
      if ShouldTrace(cfg, s, key, PhaseOf(c)) {
        CaptureKeepsLayers(cfg, s, key, PhaseOf(c));
        MatchedKeepsRows(cfg, s, rows, pid, c, key, PhaseOf(c));
      }
    }
  }

  lemma MatchedKeepsRows(cfg: Config, s: State, rows: seq<Row>, pid: nat, c: Forward, key: Key, phase: string)
    requires SoundRows(cfg, s, rows) && key !in s.captured && PhaseWanted(cfg, phase)
    ensures var e := MatchedForward(s, pid, c, key, phase);
            SoundRows(cfg, e.state, rows + if e.actions == [] then [] else [Row(pid, key, phase, !c.traceRaises)])
  {
    assert rows + [] == rows;
    if !c.snapshotRaises && !c.forwardRaises {
      TraceKeepsRows(cfg, Captured(s, key), rows, Row(pid, key, phase, !c.traceRaises));
    }
  }

  // An event is captured at most once: what is captured stays captured and is never captured
  // again, and each call captures at most one event, a wanted one.
  lemma CapturedOnce(cfg: Config, s: State, pid: nat, c: Forward)
    ensures var s' := LayerForward(cfg, s, pid, c).state;
            && s.captured <= s'.captured
            && (s'.captured != s.captured ==>
                  && c.armed && c.layerId.Some?
                  && var key := (ForwardKey(c), c.layerId.value);
                     key !in s.captured && s'.captured == s.captured + {key}
                     && Targeted(cfg, key) && PhaseWanted(cfg, PhaseOf(c)))
  {
  }

  // Which events are captured, told from the settings, the call and what was captured before: an
  // armed call of a known layer captures its event exactly if that is new, its phase and target are
  // selected and the layer's cap is not reached. The event is (forward id, layer), with -1 for a
  // forward id that is absent or 0; a phase that is absent, empty or unknown is told from the query length.
  lemma CapturesExactly(cfg: Config, s: State, rows: seq<Row>, pid: nat, c: Forward)
    requires Sound(cfg, s, rows) && c.armed && c.layerId.Some? && !c.snapshotRaises
    ensures var layer := c.layerId.value;
            var key := (if c.forwardId == None || c.forwardId == Some(0) then -1 else c.forwardId.value, layer);
            var phase := if c.phase.Some? && c.phase.value != "" && c.phase.value != "unknown" then c.phase.value
                         else if c.qLen == None then "unknown"
                         else if c.qLen.value > 1 then "prefill_chunk" else "decode";
            key in LayerForward(cfg, s, pid, c).state.captured <==>
              || key in s.captured
              || (&& (phase in cfg.phases || "*" in cfg.phases)
                  && (if |cfg.eventKeys| == 0 then layer in cfg.anyLayers else key in cfg.eventKeys)
                  && (cfg.maxPerLayer <= 0 || |set k | k in s.captured && k.1 == layer| < cfg.maxPerLayer))
  {
    assert CountFor(s.byLayer, c.layerId.value) == |OfLayer(s.captured, c.layerId.value)|;
  }

  // The same test on the counters of the process, for a call that may still fail.
  ghost predicate Selects(cfg: Config, s: State, c: Forward) {
    && c.armed && c.layerId.Some?
    && var layer := c.layerId.value;
       var key := (if c.forwardId == None || c.forwardId == Some(0) then -1 else c.forwardId.value, layer);
       var phase := if c.phase.Some? && c.phase.value != "" && c.phase.value != "unknown" then c.phase.value
                    else if c.qLen == None then "unknown"
                    else if c.qLen.value > 1 then "prefill_chunk" else "decode";
       && key !in s.captured && (phase in cfg.phases || "*" in cfg.phases)
       && (if |cfg.eventKeys| == 0 then layer in cfg.anyLayers else key in cfg.eventKeys)
       && (cfg.maxPerLayer <= 0 || layer !in s.byLayer || s.byLayer[layer] < cfg.maxPerLayer)
  }

  // What a call does to the counters, whether it raises, and the row it writes.
  lemma ForwardOutcome(cfg: Config, s: State, pid: nat, c: Forward)
    ensures var e, on := LayerForward(cfg, s, pid, c), Selects(cfg, s, c);
            var sampled := on && !c.snapshotRaises && !c.forwardRaises;
            && (e.raised <==> c.forwardRaises || (on && (c.snapshotRaises || (c.traceRaises && c.strict))))
            && e.state.samples == s.samples + (if sampled then 1 else 0)
            && e.state.traces == s.traces + (if sampled && !c.traceRaises then 1 else 0)
            && e.state.errors == s.errors + (if sampled && c.traceRaises then 1 else 0)
            && e.state.layerEvents == s.layerEvents + (if c.armed && !e.raised then 1 else 0)
            && (sampled ==>
                  RowsOf(e.actions) ==
                    [Row(pid, (if c.forwardId == None || c.forwardId == Some(0) then -1 else c.forwardId.value, c.layerId.value),
                         if c.phase.Some? && c.phase.value != "" && c.phase.value != "unknown" then c.phase.value
                         else if c.qLen == None then "unknown"
                         else if c.qLen.value > 1 then "prefill_chunk" else "decode",
                         !c.traceRaises)])
            && (!sampled ==> RowsOf(e.actions) == [])
  {
    RowsOfForward(cfg, s, pid, c);
    if c.armed && c.layerId.Some? {
      SelectsIsShouldTrace(cfg, s, c);
    }
  }

  lemma SelectsIsShouldTrace(cfg: Config, s: State, c: Forward)
    requires c.armed && c.layerId.Some?
    ensures Selects(cfg, s, c) <==> ShouldTrace(cfg, s, (ForwardKey(c), c.layerId.value), PhaseOf(c))
  {
  }

  // A call that captures an event and then raises in the original forward: the event is counted
  // as captured but never sampled.
  predicate Loses(cfg: Config, s: State, c: Forward) {
    && c.armed && c.layerId.Some? && !c.snapshotRaises && c.forwardRaises
    && ShouldTrace(cfg, s, (ForwardKey(c), c.layerId.value), PhaseOf(c))
  }

  lemma CapturedBalance(cfg: Config, s: State, pid: nat, c: Forward)
    ensures var s' := LayerForward(cfg, s, pid, c).state;
            |s'.captured| + s.samples == |s.captured| + s'.samples + if Loses(cfg, s, c) then 1 else 0
  {
  }

  // ---------------------------------------------------------------- the metadata file

  function Score(s: State): nat {
    s.layerEvents + s.samples + s.traces + s.errors + |s.captured|
  }

  // The sum of the four counters and the number of captured events.
  lemma ScoreIs(s: State)
    ensures Score(s) == |s.captured| + s.errors + s.traces + s.samples + s.layerEvents
  {
  }

  // The shared trace directory.
  datatype Dir = Dir(manifest: seq<Row>, layerRows: nat, file: Option<State>)

  // One read-compare-replace of the metadata file.
  function Offer(file: Option<State>, s: State): Option<State> {
    if file.Some? && Score(file.value) > Score(s) then file else Some(s)
  }

  function Perform(d: Dir, a: Action): Dir {
    match a
    case AppendRow(row) => d.(manifest := d.manifest + [row])
    case AppendLayer => d.(layerRows := d.layerRows + 1)
    case Put(s) => d.(file := Offer(d.file, s))
  }

  function PerformAll(d: Dir, actions: seq<Action>): Dir
    decreases |actions|
  {
    if actions == [] then d else PerformAll(Perform(d, actions[0]), actions[1..])
  }

  // A process's own score never falls.
  lemma ScoreNeverFalls(cfg: Config, s: State, pid: nat, c: Forward)
    ensures var e := LayerForward(cfg, s, pid, c);
            && Score(s) <= Score(e.state)
            && forall i :: 0 <= i < |e.actions| && e.actions[i].Put? ==>
                 Score(s) <= Score(e.actions[i].state) <= Score(e.state)
  {
    CapturedOnce(cfg, s, pid, c);
    SubsetCardinality(s.captured, LayerForward(cfg, s, pid, c).state.captured);
    if c.layerId.Some? {
      SubsetCardinality(s.captured, Captured(s, (ForwardKey(c), c.layerId.value)).captured);
    }
  }
}
