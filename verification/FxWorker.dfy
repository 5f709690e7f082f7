// One worker process as the patch module runs it: module globals updated step by step, and files
// in the shared trace directory. Proved against the step function of FxCapture.
module FxWorker {
  import opened FxCapture
  import opened Options

  class TraceDir {
    var manifest: seq<Row>
    var layerRows: nat
    var file: Option<State>

    constructor ()
      ensures Contents() == Dir([], 0, None)
    {
      manifest, layerRows, file := [], 0, None;
    }

    function Contents(): Dir
      reads this
    {
      Dir(manifest, layerRows, file)
    }
  }

  class Worker {
    const cfg: Config
    const pid: nat
    const dir: TraceDir
    var captured: set<Key>
    var byLayer: map<int, nat>
    var layerEvents: nat
    var samples: nat
    var traces: nat
    var errors: nat

    constructor (cfg: Config, pid: nat, dir: TraceDir)
      ensures this.cfg == cfg && this.pid == pid && this.dir == dir && Current() == INITIAL
    {
      this.cfg, this.pid, this.dir := cfg, pid, dir;
      captured, byLayer, layerEvents, samples, traces, errors := {}, map[], 0, 0, 0, 0;
    }

    function Current(): State
      reads this
    {
      State(captured, byLayer, layerEvents, samples, traces, errors)
    }

    // _write_run_metadata: replace the file unless it scores higher.
    method WriteRunMetadata()
      modifies dir`file
      ensures dir.Contents() == Perform(old(dir.Contents()), Put(Current()))
      ensures dir.file == if old(dir.file).Some? && Score(old(dir.file).value) > Score(Current()) then old(dir.file)
                          else Some(Current())
    {
      if dir.file.Some? && Score(dir.file.value) > Score(Current()) {
        return;
      }
      dir.file := Some(Current());
    }

    // _run_fx_trace: one sample, one manifest row, whatever happens in between.
    method RunFxTrace(key: Key, phase: string, traceRaises: bool, strict: bool) returns (raised: bool)
      modifies this`samples, this`traces, this`errors, dir`manifest, dir`file
      ensures Current() == Traced(old(Current()), !traceRaises)
      ensures dir.Contents()
           == Perform(Perform(old(dir.Contents()), AppendRow(Row(pid, key, phase, !traceRaises))), Put(Current()))
      ensures raised <==> traceRaises && strict
    {
      samples := samples + 1;
      if traceRaises {
        errors := errors + 1;
      } else {
        traces := traces + 1;
      }
      dir.manifest := dir.manifest + [Row(pid, key, phase, !traceRaises)];
      WriteRunMetadata();
      raised := traceRaises && strict;
    }

    // The bookkeeping at the end of a wrapped forward.
    method RecordLayerEvent()
      modifies this`layerEvents, dir`layerRows, dir`file
      ensures Current() == Recorded(old(Current()))
      ensures dir.Contents() == Perform(Perform(old(dir.Contents()), AppendLayer), Put(Current()))
    {
      layerEvents := layerEvents + 1;
      dir.layerRows := dir.layerRows + 1;
      WriteRunMetadata();
    }

    // The wrapped forward of a layer that matched: snapshot, capture, run, then trace.
    method CapturedForward(c: Forward, key: Key, phase: string) returns (raised: bool)
      modifies this, dir
      ensures var e := MatchedForward(old(Current()), pid, c, key, phase);
              Current() == e.state && raised == e.raised && dir.Contents() == PerformAll(old(dir.Contents()), e.actions)
    {
      if c.snapshotRaises {
        return true;
      }
      captured := captured + {key};
      byLayer := byLayer[key.1 := CountFor(byLayer, key.1) + 1];
      if c.forwardRaises {
        return true;
      }
      var strictRaise := RunFxTrace(key, phase, c.traceRaises, c.strict);
      ghost var row, s1 := Row(pid, key, phase, !c.traceRaises), Current();
      TwoWrites(old(dir.Contents()), AppendRow(row), Put(s1));
      if strictRaise {
        return true;
      }
      RecordLayerEvent();
      FourWrites(old(dir.Contents()), AppendRow(row), Put(s1), AppendLayer, Put(Current()));
      raised := false;
    }

    // The wrapped layer forward. Besides what the step function says: an armed call of a known
    // layer, whose snapshot does not raise, captures its event exactly if it is selected.
    method Forward(c: Forward) returns (raised: bool)
      modifies this, dir
      ensures c.armed && c.layerId.Some? && !c.snapshotRaises ==>
                var layer := c.layerId.value;
                var key := (if c.forwardId == None || c.forwardId == Some(0) then -1 else c.forwardId.value, layer);
                var phase := if c.phase.Some? && c.phase.value != "" && c.phase.value != "unknown" then c.phase.value
                             else if c.qLen == None then "unknown"
                             else if c.qLen.value > 1 then "prefill_chunk" else "decode";
                key in captured <==>
                  || key in old(captured)
                  || (&& (phase in cfg.phases || "*" in cfg.phases)
                      && (if |cfg.eventKeys| == 0 then layer in cfg.anyLayers else key in cfg.eventKeys)
                      && (cfg.maxPerLayer <= 0 || layer !in old(byLayer) || old(byLayer)[layer] < cfg.maxPerLayer))
      ensures var e := LayerForward(cfg, old(Current()), pid, c);
              Current() == e.state && raised == e.raised && dir.Contents() == PerformAll(old(dir.Contents()), e.actions)
    {
      if !c.armed {
        return c.forwardRaises;
      }
      var phase := PhaseOf(c);
      if c.layerId.Some? && ShouldTrace(cfg, Current(), (ForwardKey(c), c.layerId.value), phase) {
        raised := CapturedForward(c, (ForwardKey(c), c.layerId.value), phase);
        return;
      }
      if c.forwardRaises {
        return true;
      }
      RecordLayerEvent();
      TwoWrites(old(dir.Contents()), AppendLayer, Put(Current()));
      raised := false;
    }
  }

  lemma TwoWrites(d: Dir, a: Action, b: Action)
    ensures PerformAll(d, [a, b]) == Perform(Perform(d, a), b)
  {
    assert [a, b][1..] == [b] && [b][1..] == [];
    assert PerformAll(Perform(d, a), [b]) == PerformAll(Perform(Perform(d, a), b), []);
  }

  lemma FourWrites(d: Dir, a: Action, b: Action, a': Action, b': Action)
    ensures PerformAll(d, [a, b, a', b']) == Perform(Perform(Perform(Perform(d, a), b), a'), b')
  {
    assert [a, b, a', b'][1..] == [b, a', b'] && [b, a', b'][1..] == [a', b'];
    TwoWrites(Perform(Perform(d, a), b), a', b');
  }
}
