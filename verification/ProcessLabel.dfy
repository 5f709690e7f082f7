// The range label of the latency patch and its parser in the summarizer.
module ProcessLabel {
  import opened Text

  const PROCESS_LABEL := "vllm_process_latency"

  datatype Field = Field(key: string, value: string)

  function FieldText(f: Field): string {
    f.key + ['='] + f.value
  }

  function FieldTexts(fields: seq<Field>): (r: seq<string>)
    ensures |r| == |fields| && forall i :: 0 <= i < |r| ==> r[i] == FieldText(fields[i])
  {
    seq(|fields|, i requires 0 <= i < |fields| => FieldText(fields[i]))
  }

  // What the label says about a range.
  datatype Meta = Meta(context: string, eventId: string, layerId: string, qLen: string)

  function LabelFields(meta: Meta, order: nat, processId: string): seq<Field> {
    [Field("ctx", meta.context), Field("event", meta.eventId), Field("layer", meta.layerId),
     Field("q_len", meta.qLen), Field("process", Format02d(order)), Field("id", processId), Field("name", processId)]
  }

  // _make_label
  function MakeLabel(meta: Meta, order: nat, processId: string): string {
    Join([PROCESS_LABEL] + FieldTexts(LabelFields(meta, order, processId)), '|')
  }

  // The dictionary after the first parts: later keys overwrite earlier ones.
  function ParseParts(parts: seq<string>): map<string, string> {
    if parts == [] then map[]
    else
      var n := |parts| - 1;
      var before := ParseParts(parts[..n]);
      var i := Find(parts[n], '=');
      if i == |parts[n]| then before else before[parts[n][..i] := parts[n][i + 1..]]
  }

  // parse_label
  method ParseLabel(text: string) returns (result: map<string, string>)
    ensures result == ParseParts(Split(text, '|')[1..])
  {
    var parts := Split(text, '|')[1..];
    result := map[];
    for i := 0 to |parts|
      invariant result == ParseParts(parts[..i])
    {
      assert parts[..i + 1][..i] == parts[..i];
      var at := Find(parts[i], '=');
      if at < |parts[i]| {
        result := result[parts[i][..at] := parts[i][at + 1..]];
      }
    }
    assert parts[..|parts|] == parts;
  }

  ghost predicate DistinctKeys(fields: seq<Field>) {
    && (forall i :: 0 <= i < |fields| ==> '=' !in fields[i].key)
    && (forall i, j :: 0 <= i < j < |fields| ==> fields[i].key != fields[j].key)
  }

  // The dictionary holds exactly the fields.
  ghost predicate Holds(m: map<string, string>, fields: seq<Field>) {
    && (forall i :: 0 <= i < |fields| ==> fields[i].key in m && m[fields[i].key] == fields[i].value)
    && (forall k :: k in m ==> exists i :: 0 <= i < |fields| && fields[i].key == k)
  }

  lemma ParseLastField(parts: seq<string>, f: Field)
    requires '=' !in f.key
    ensures ParseParts(parts + [FieldText(f)]) == ParseParts(parts)[f.key := f.value]
  {
    assert (parts + [FieldText(f)])[..|parts|] == parts;
    FindIs(f.key, '=', f.value);
    assert FieldText(f)[..|f.key|] == f.key && FieldText(f)[|f.key| + 1..] == f.value;
  }

  lemma HoldsOneMore(m: map<string, string>, fields: seq<Field>, f: Field)
    requires Holds(m, fields) && DistinctKeys(fields + [f])
    ensures Holds(m[f.key := f.value], fields + [f])
  {
    var all := fields + [f];
    forall i | 0 <= i < |fields| ensures fields[i].key != f.key {
      assert all[i].key != all[|fields|].key;
    }
    var m' := m[f.key := f.value];
    forall k | k in m' ensures exists i :: 0 <= i < |all| && all[i].key == k {
      if k == f.key {
        assert all[|fields|].key == k;
      } else {
        var i :| 0 <= i < |fields| && fields[i].key == k;
        assert all[i].key == k;
      }
    }
  }

  lemma {:induction false} ParseFieldTexts(fields: seq<Field>)
    requires DistinctKeys(fields)
    ensures Holds(ParseParts(FieldTexts(fields)), fields)
  {
    if fields != [] {
      var n := |fields| - 1;
      var before, f := fields[..n], fields[n];
      ParseFieldTexts(before);
      assert fields == before + [f];
      assert FieldTexts(fields) == FieldTexts(before) + [FieldText(f)];
      ParseLastField(FieldTexts(before), f);
      HoldsOneMore(ParseParts(FieldTexts(before)), before, f);
    }
  }

  // No parsed value ever holds a separator.
  lemma {:induction false} ParsedValuesHaveNoBar(parts: seq<string>, key: string)
    requires forall i :: 0 <= i < |parts| ==> '|' !in parts[i]
    requires key in ParseParts(parts)
    ensures '|' !in ParseParts(parts)[key]
  {
    var n := |parts| - 1;
    var i := Find(parts[n], '=');
    if i < |parts[n]| && parts[n][..i] == key {
      var value := parts[n][i + 1..];
      forall j | 0 <= j < |value| ensures value[j] != '|' {
        assert value[j] == parts[n][i + 1 + j];
      }
    } else {
      ParsedValuesHaveNoBar(parts[..n], key);
    }
  }

  lemma FieldTextBar(f: Field)
    requires '|' !in f.key && '|' !in f.value
    ensures '|' !in FieldText(f)
  {
  }

  lemma LabelFieldsWellFormed(meta: Meta, order: nat, processId: string)
    ensures DistinctKeys(LabelFields(meta, order, processId))
    ensures forall i :: 0 <= i < 7 ==> '|' !in LabelFields(meta, order, processId)[i].key
  {
  }

  // Parsing a printed label gives back every printed field, and nothing else, exactly when no
  // printed value holds the separator.
  lemma LabelRoundTrip(meta: Meta, order: nat, processId: string)
    ensures var fields := LabelFields(meta, order, processId);
            Holds(ParseParts(Split(MakeLabel(meta, order, processId), '|')[1..]), fields)
            <==> forall i :: 0 <= i < |fields| ==> '|' !in fields[i].value
  {
    var fields := LabelFields(meta, order, processId);
    var parts := [PROCESS_LABEL] + FieldTexts(fields);
    LabelFieldsWellFormed(meta, order, processId);
    if forall i :: 0 <= i < |fields| ==> '|' !in fields[i].value {
      forall i | 0 <= i < |parts| ensures '|' !in parts[i] {
        if i > 0 {
          FieldTextBar(fields[i - 1]);
        }
      }
      SplitJoin(parts, '|');
      assert parts[1..] == FieldTexts(fields);
      ParseFieldTexts(fields);
    } else {
      var i :| 0 <= i < |fields| && '|' in fields[i].value;
      var read := Split(MakeLabel(meta, order, processId), '|')[1..];
      if fields[i].key in ParseParts(read) {
        ParsedValuesHaveNoBar(read, fields[i].key);
      }
    }
  }

  // A context with the separator in it does not survive.
  lemma BarIsLost(order: nat, processId: string)
    ensures var meta := Meta("a|b", "", "", "");
            !Holds(ParseParts(Split(MakeLabel(meta, order, processId), '|')[1..]), LabelFields(meta, order, processId))
  {
    var meta := Meta("a|b", "", "", "");
    LabelRoundTrip(meta, order, processId);
    assert "a|b"[1] == '|';
    assert LabelFields(meta, order, processId)[0].value == "a|b";
  }

  // What is read back under each name, when no value holds the separator.
  lemma LabelReadBack(meta: Meta, order: nat, processId: string)
    requires '|' !in meta.context && '|' !in meta.eventId && '|' !in meta.layerId && '|' !in meta.qLen && '|' !in processId
    ensures var m := ParseParts(Split(MakeLabel(meta, order, processId), '|')[1..]);
            && Reads(m, "ctx", meta.context) && Reads(m, "event", meta.eventId) && Reads(m, "layer", meta.layerId)
            && Reads(m, "q_len", meta.qLen) && Reads(m, "process", Format02d(order))
            && Reads(m, "id", processId) && Reads(m, "name", processId)
            && |LabelFields(meta, order, processId)| == 7
  {
    var m := ParseParts(Split(MakeLabel(meta, order, processId), '|')[1..]);
    NoBars(meta, order, processId);
    LabelRoundTrip(meta, order, processId);
    HeldFields(m, LabelFields(meta, order, processId));
    SevenFields(m, meta, order, processId);
  }

  lemma NoBars(meta: Meta, order: nat, processId: string)
    requires '|' !in meta.context && '|' !in meta.eventId && '|' !in meta.layerId && '|' !in meta.qLen && '|' !in processId
    ensures forall i :: 0 <= i < 7 ==> '|' !in LabelFields(meta, order, processId)[i].value
  {
    PaddedHasNoBar(order);
  }

  lemma SevenFields(m: map<string, string>, meta: Meta, order: nat, processId: string)
    requires var fields := LabelFields(meta, order, processId);
             forall i :: 0 <= i < |fields| ==> Reads(m, fields[i].key, fields[i].value)
    ensures Reads(m, "ctx", meta.context) && Reads(m, "event", meta.eventId) && Reads(m, "layer", meta.layerId)
    ensures Reads(m, "q_len", meta.qLen) && Reads(m, "process", Format02d(order))
    ensures Reads(m, "id", processId) && Reads(m, "name", processId)
    ensures |LabelFields(meta, order, processId)| == 7
  {
    var f := LabelFields(meta, order, processId);
    assert Reads(m, f[0].key, f[0].value) && Reads(m, f[1].key, f[1].value) && Reads(m, f[2].key, f[2].value);
    assert Reads(m, f[3].key, f[3].value) && Reads(m, f[4].key, f[4].value);
    assert Reads(m, f[5].key, f[5].value) && Reads(m, f[6].key, f[6].value);
  }

  predicate Reads(m: map<string, string>, key: string, value: string) {
    key in m && m[key] == value
  }

  lemma HeldFields(m: map<string, string>, fields: seq<Field>)
    requires Holds(m, fields)
    ensures forall i :: 0 <= i < |fields| ==> Reads(m, fields[i].key, fields[i].value)
  {
  }

  lemma PaddedHasNoBar(order: nat)
    ensures '|' !in Format02d(order)
  {
  }

  // A label starts with the label's name.
  lemma LabelStarts(meta: Meta, order: nat, processId: string)
    ensures PROCESS_LABEL + ['|'] <= MakeLabel(meta, order, processId)
  {
    var parts := [PROCESS_LABEL] + FieldTexts(LabelFields(meta, order, processId));
    assert parts[1..] == FieldTexts(LabelFields(meta, order, processId));
  }

  // A later part with the same name wins.
  lemma LaterPartWins(parts: seq<string>, key: string, value: string)
    requires '=' !in key
    ensures var m := ParseParts(parts + [key + ['='] + value]);
            m == ParseParts(parts)[key := value]
  {
    ParseLastField(parts, Field(key, value));
  }

  // A part without the equals sign says nothing.
  lemma PartWithoutEquals(parts: seq<string>, part: string)
    requires '=' !in part
    ensures ParseParts(parts + [part]) == ParseParts(parts)
  {
    FindNone(part, '=');
    assert (parts + [part])[..|parts|] == parts;
  }
}
