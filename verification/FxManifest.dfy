// The counters rebuilt afterwards from the manifest, compared with those the tracing process
// kept.
module FxManifest {
  import opened Decimal
  import opened FxCapture

  function LayerSuffix(layer: int): (s: string)
    ensures |s| >= 6 && s[0] == '_' && s[6..] == IntText(layer)
  {
    "_layer" + IntText(layer)
  }

  // f"input{forward}_layer{layer}"
  function EventId(key: Key): (id: string)
    ensures id == "input" + IntText(key.0) + "_layer" + IntText(key.1)
  {
    "input" + (IntText(key.0) + LayerSuffix(key.1))
  }

  // Everything up to the first character that cannot be part of an integer.
  function IntegerPrefix(s: string): string {
    if s == [] || !InInteger(s[0]) then [] else [s[0]] + IntegerPrefix(s[1..])
  }

  lemma {:induction false} IntegerPrefixStops(a: string, rest: string)
    requires forall i :: 0 <= i < |a| ==> InInteger(a[i])
    requires rest != [] && !InInteger(rest[0])
    ensures IntegerPrefix(a + rest) == a
  {
    if a == [] {
      assert a + rest == rest;
    } else {
      IntegerPrefixStops(a[1..], rest);
      assert (a + rest)[1..] == a[1..] + rest;
    }
  }

  lemma SplitInteger(a: string, r: string, b: string, t: string)
    requires a + r == b + t
    requires forall i :: 0 <= i < |a| ==> InInteger(a[i])
    requires forall i :: 0 <= i < |b| ==> InInteger(b[i])
    requires r != [] && t != [] && !InInteger(r[0]) && !InInteger(t[0])
    ensures a == b && r == t
  {
    IntegerPrefixStops(a, r);
    IntegerPrefixStops(b, t);
    assert (a + r)[|a|..] == r && (b + t)[|b|..] == t;
  }

  lemma DropCommonPrefix(p: string, a: string, b: string)
    requires p + a == p + b
    ensures a == b
  {
    assert (p + a)[|p|..] == a && (p + b)[|p|..] == b;
  }

  // Different events have different ids.
  lemma EventIdInjective(j: Key, k: Key)
    requires EventId(j) == EventId(k)
    ensures j == k
  {
    var a, b := LayerSuffix(j.1), LayerSuffix(k.1);
    DropCommonPrefix("input", IntText(j.0) + a, IntText(k.0) + b);
    IntTextChars(j.0);
    IntTextChars(k.0);
    SplitInteger(IntText(j.0), a, IntText(k.0), b);
    IntTextInjective(j.0, k.0);
    IntTextInjective(j.1, k.1);
  }

  // The part of run_metadata.json that both sides compute.
  datatype Summary = Summary(
    capturedEvents: set<string>,
    capturedByLayer: map<string, nat>,
    samples: nat,
    traces: nat,
    errors: nat,
    layerEvents: nat)

  function EventIds(keys: set<Key>): set<string> {
    set k | k in keys :: EventId(k)
  }

  // The counter as it is written to JSON: the keys become text.
  ghost predicate SameCounts(text: map<string, nat>, byLayer: map<int, nat>) {
    && text.Keys == (set l | l in byLayer :: IntText(l))
    && forall l :: l in byLayer ==> IntText(l) in text && text[IntText(l)] == byLayer[l]
  }

  function CountLayer(rows: seq<Row>, layer: int): nat {
    if rows == [] then 0 else CountLayer(rows[..|rows| - 1], layer) + if rows[|rows| - 1].key.1 == layer then 1 else 0
  }

  // What a process would write about itself.
  ghost predicate Describes(m: Summary, s: State) {
    && m.capturedEvents == EventIds(s.captured) && SameCounts(m.capturedByLayer, s.byLayer)
    && m.samples == s.samples && m.traces == s.traces && m.errors == s.errors && m.layerEvents == s.layerEvents
  }

  function LayerTexts(rows: seq<Row>): set<string> {
    set r | r in rows :: IntText(r.key.1)
  }

  function CountText(counts: map<string, nat>, text: string): nat {
    if text in counts then counts[text] else 0
  }

  // Rows whose layer_id column reads `text`.
  function CountLayerText(rows: seq<Row>, text: string): nat {
    if rows == [] then 0
    else CountLayerText(rows[..|rows| - 1], text) + if IntText(rows[|rows| - 1].key.1) == text then 1 else 0
  }

  lemma {:induction false} CountLayerTextIsCountLayer(rows: seq<Row>, l: int)
    ensures CountLayerText(rows, IntText(l)) == CountLayer(rows, l)
  {
    if rows != [] {
      var n := |rows| - 1;
      CountLayerTextIsCountLayer(rows[..n], l);
      if IntText(rows[n].key.1) == IntText(l) {
        IntTextInjective(rows[n].key.1, l);
      }
    }
  }

  // _captured_by_layer: count the rows of each layer.
  method CapturedByLayer(rows: seq<Row>) returns (counts: map<string, nat>)
    ensures counts.Keys == LayerTexts(rows)
    ensures forall t :: CountText(counts, t) == CountLayerText(rows, t)
  {
    counts := map[];
    for i := 0 to |rows|
      invariant counts.Keys == LayerTexts(rows[..i])
      invariant forall t :: CountText(counts, t) == CountLayerText(rows[..i], t)
    {
      var layer := IntText(rows[i].key.1);
      assert rows[..i + 1][..i] == rows[..i];
      LayerTextsStep(rows, i);
      counts := counts[layer := CountText(counts, layer) + 1];
    }
    assert rows[..|rows|] == rows;
  }

  lemma LayerTextsStep(rows: seq<Row>, i: nat)
    requires i < |rows|
    ensures LayerTexts(rows[..i + 1]) == LayerTexts(rows[..i]) + {IntText(rows[i].key.1)}
  {
    assert rows[..i + 1] == rows[..i] + [rows[i]];
  }

  // Every count is taken from the rows.
  ghost predicate Rebuilt(m: Summary, rows: seq<Row>, layerRows: nat) {
    && m.samples == |rows| && m.traces == CountOk(rows, true) && m.errors == CountOk(rows, false)
    && m.capturedEvents == EventIds(Keys(rows))
    && m.capturedByLayer.Keys == LayerTexts(rows)
    && (forall t :: CountText(m.capturedByLayer, t) == CountLayerText(rows, t))
    && m.layerEvents == layerRows
  }

  // Without rows only the count of observed events is replaced.
  ghost predicate Derived(metadata: Summary, rows: seq<Row>, layerRows: nat, r: Summary) {
    if rows == [] then r == metadata.(layerEvents := layerRows) else Rebuilt(r, rows, layerRows)
  }

  // derive_run_metadata: counters from the manifest, unless it is empty; the observed events
  // always from the layer-event rows.
  method DeriveRunMetadata(metadata: Summary, rows: seq<Row>, layerRows: nat) returns (r: Summary)
    ensures Derived(metadata, rows, layerRows, r)
  {
    r := metadata;
    if rows != [] {
      var counts := CapturedByLayer(rows);
      r := Summary(EventIds(Keys(rows)), counts, |rows|, CountOk(rows, true), CountOk(rows, false), 0);
    }
    r := r.(layerEvents := layerRows);
  }

  // ---------------------------------------------------------------- rebuilt = kept

  lemma {:induction false} CountLayerIsCardinality(rows: seq<Row>, layer: int)
    requires |Keys(rows)| == |rows|
    ensures CountLayer(rows, layer) == |OfLayer(Keys(rows), layer)|
  {
    if rows == [] {
      assert OfLayer(Keys(rows), layer) == {};
    } else {
      var n := |rows| - 1;
      var before, key := rows[..n], rows[n].key;
      assert rows == before + [rows[n]];
      KeysOneMore(before, rows[n]);
      KeysAtMost(before);
      CountLayerIsCardinality(before, layer);
      OfLayerOneMore(Keys(before), key, layer);
    }
  }

  lemma {:induction false} KeysAtMost(rows: seq<Row>)
    ensures |Keys(rows)| <= |rows|
  {
    if rows != [] {
      var n := |rows| - 1;
      KeysAtMost(rows[..n]);
      assert Keys(rows) == Keys(rows[..n]) + {rows[n].key};
    }
  }

  lemma EventIdsEqual(a: set<Key>, b: set<Key>)
    ensures EventIds(a) == EventIds(b) <==> a == b
  {
    if EventIds(a) == EventIds(b) {
      forall k | k in a ensures k in b {
        assert EventId(k) in EventIds(b);
        var j :| j in b && EventId(j) == EventId(k);
        EventIdInjective(j, k);
      }
      forall k | k in b ensures k in a {
        assert EventId(k) in EventIds(a);
        var j :| j in a && EventId(j) == EventId(k);
        EventIdInjective(j, k);
      }
    }
  }

  lemma {:induction false} SameCountsAt(text: map<string, nat>, byLayer: map<int, nat>, l: int)
    requires SameCounts(text, byLayer)
    ensures CountText(text, IntText(l)) == CountFor(byLayer, l)
  {
    if l !in byLayer && IntText(l) in text {
      var k :| k in byLayer && IntText(k) == IntText(l);
      IntTextInjective(k, l);
    }
  }

  lemma SameCountsUnique(text: map<string, nat>, a: map<int, nat>, b: map<int, nat>)
    requires SameCounts(text, a)
    ensures SameCounts(text, b) <==> a == b
  {
    if SameCounts(text, b) {
      forall l | l in a ensures l in b {
        assert IntText(l) in text;
        var k :| k in b && IntText(k) == IntText(l);
        IntTextInjective(k, l);
      }
      forall l | l in b ensures l in a {
        assert IntText(l) in text;
        var k :| k in a && IntText(k) == IntText(l);
        IntTextInjective(k, l);
      }
      forall l | l in a ensures a[l] == b[l] {
        assert a[l] == text[IntText(l)] == b[l];
      }
      assert a.Keys == b.Keys;
      assert a == b;
    }
  }

  // A summary rebuilt from the rows of a process is the one it kept, exactly when every captured
  // event was also sampled.
  lemma RebuiltDescribesProcess(cfg: Config, s: State, rows: seq<Row>, m: Summary)
    requires Sound(cfg, s, rows) && Rebuilt(m, rows, s.layerEvents)
    ensures m.samples == s.samples && m.traces == s.traces && m.errors == s.errors
    ensures Describes(m, s) <==> s.samples == |s.captured|
  {
    SoundCounts(cfg, s, rows);
    EventIdsEqual(Keys(rows), s.captured);
    if Keys(rows) == s.captured {
      forall l | l in s.byLayer
        ensures IntText(l) in m.capturedByLayer && m.capturedByLayer[IntText(l)] == s.byLayer[l]
      {
        assert CountFor(s.byLayer, l) == |OfLayer(s.captured, l)|;
        CountLayerIsCardinality(rows, l);
        CountLayerTextIsCountLayer(rows, l);
        assert CountText(m.capturedByLayer, IntText(l)) == CountLayer(rows, l);
      }
      forall r | r in rows ensures r.key.1 in s.byLayer {
        assert r.key in OfLayer(s.captured, r.key.1);
        assert CountFor(s.byLayer, r.key.1) == |OfLayer(s.captured, r.key.1)|;
      }
      assert m.capturedByLayer.Keys == (set l | l in s.byLayer :: IntText(l));
    }
  }

  // What the summarizer derives from the rows of one process and a metadata file that holds
  // `record` is the summary that the process kept, exactly when every captured event was sampled,
  // or, without rows, when the record is that of the process but for the count of observed events.
  lemma DerivedDescribesProcess(cfg: Config, s: State, rows: seq<Row>, record: State, metadata: Summary, r: Summary)
    requires Sound(cfg, s, rows) && Describes(metadata, record) && Derived(metadata, rows, s.layerEvents, r)
    ensures rows != [] ==> r.samples == s.samples && r.traces == s.traces && r.errors == s.errors
    ensures Describes(r, s) <==>
              if rows == [] then record.(layerEvents := s.layerEvents) == s else s.samples == |s.captured|
  {
    if rows == [] {
      EventIdsEqual(record.captured, s.captured);
      SameCountsUnique(metadata.capturedByLayer, record.byLayer, s.byLayer);
    } else {
      RebuiltDescribesProcess(cfg, s, rows, r);
    }
  }
}
