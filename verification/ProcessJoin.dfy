// aggregate: the join of measured rows with the known events and processes.
module ProcessJoin {
  import opened Alignment
  import opened Sequences
  import opened Decimal
  import opened Text

  datatype Event = Event(context: string, eventId: string)

  // A measured row; the order column is text, padded or not.
  datatype Row = Row(context: string, eventId: string, order: string)

  datatype Key = Key(context: string, eventId: string, order: string)

  function KeyOf(r: Row): Key {
    Key(r.context, r.eventId, ZFill2(r.order))
  }

  function KeyFor(e: Event, order: nat): Key {
    Key(e.context, e.eventId, ZFill2(NatText(order)))
  }

  // A row written for process `order`, padded as in a range label or plain as in a CSV column,
  // meets the key of that process and of no other.
  lemma RowMeetsItsProcess(e: Event, order: nat, other: nat)
    ensures KeyOf(Row(e.context, e.eventId, NatText(order))) == KeyFor(e, order)
    ensures KeyOf(Row(e.context, e.eventId, Format02d(order))) == KeyFor(e, order)
    ensures KeyFor(e, order) == KeyFor(e, other) ==> order == other
  {
    PaddingAgrees(order);
    if KeyFor(e, order) == KeyFor(e, other) {
      PaddingInjective(order, other);
    }
  }

  function Matching(rows: seq<Row>, key: Key): seq<Row> {
    if rows == [] then []
    else Matching(rows[..|rows| - 1], key) + if KeyOf(rows[|rows| - 1]) == key then [rows[|rows| - 1]] else []
  }

  // The rows of a group, as dict.get(key, []) returns them.
  function GroupOf(groups: map<Key, seq<Row>>, key: Key): seq<Row> {
    if key in groups then groups[key] else []
  }

  method GroupByKey(rows: seq<Row>) returns (groups: map<Key, seq<Row>>)
    ensures forall key :: GroupOf(groups, key) == Matching(rows, key)
  {
    groups := map[];
    for i := 0 to |rows|
      invariant forall key :: GroupOf(groups, key) == Matching(rows[..i], key)
    {
      assert rows[..i + 1][..i] == rows[..i];
      var key := KeyOf(rows[i]);
      groups := groups[key := GroupOf(groups, key) + [rows[i]]];
    }
    assert rows[..|rows|] == rows;
  }

  datatype SummaryRow = SummaryRow(event: Event, order: nat, patchCount: nat, hiptxCount: nat)

  // The pairs of the two nested loops.
  function PairsFor(e: Event, orders: seq<nat>): seq<(Event, nat)> {
    if orders == [] then [] else PairsFor(e, orders[..|orders| - 1]) + [(e, orders[|orders| - 1])]
  }

  function Pairs(events: seq<Event>, orders: seq<nat>): seq<(Event, nat)> {
    if events == [] then []
    else Pairs(events[..|events| - 1], orders) + PairsFor(events[|events| - 1], orders)
  }

  ghost predicate Summarizes(rows: seq<SummaryRow>, pairs: seq<(Event, nat)>, patch: seq<Row>, hiptx: seq<Row>) {
    && |rows| == |pairs|
    && forall i :: 0 <= i < |rows| ==>
         && rows[i].event == pairs[i].0 && rows[i].order == pairs[i].1
         && rows[i].patchCount == |Matching(patch, KeyFor(pairs[i].0, pairs[i].1))|
         && rows[i].hiptxCount == |Matching(hiptx, KeyFor(pairs[i].0, pairs[i].1))|
  }

  lemma SummarizesConcat(a: seq<SummaryRow>, b: seq<SummaryRow>, p: seq<(Event, nat)>, q: seq<(Event, nat)>,
                         patch: seq<Row>, hiptx: seq<Row>)
    requires Summarizes(a, p, patch, hiptx) && Summarizes(b, q, patch, hiptx)
    ensures Summarizes(a + b, p + q, patch, hiptx)
  {
  }

  // The inner loop: one event against all processes.
  method SummarizeEvent(e: Event, orders: seq<nat>, patchByKey: map<Key, seq<Row>>, hiptxByKey: map<Key, seq<Row>>,
                        ghost patch: seq<Row>, ghost hiptx: seq<Row>)
    returns (rows: seq<SummaryRow>)
    requires forall key :: GroupOf(patchByKey, key) == Matching(patch, key)
    requires forall key :: GroupOf(hiptxByKey, key) == Matching(hiptx, key)
    ensures Summarizes(rows, PairsFor(e, orders), patch, hiptx)
  {
    rows := [];
    for j := 0 to |orders|
      invariant Summarizes(rows, PairsFor(e, orders[..j]), patch, hiptx)
    {
      assert orders[..j + 1][..j] == orders[..j];
      var key := KeyFor(e, orders[j]);
      var row := SummaryRow(e, orders[j], |GroupOf(patchByKey, key)|, |GroupOf(hiptxByKey, key)|);
      assert Summarizes([row], [(e, orders[j])], patch, hiptx);
      SummarizesConcat(rows, [row], PairsFor(e, orders[..j]), [(e, orders[j])], patch, hiptx);
      rows := rows + [row];
    }
    assert orders[..|orders|] == orders;
  }

  method Aggregate(events: seq<Event>, orders: seq<nat>, patch: seq<Row>, hiptx: seq<Row>)
    returns (summary: seq<SummaryRow>)
    ensures Summarizes(summary, Pairs(events, orders), patch, hiptx)
  {
    var patchByKey := GroupByKey(patch);
    var hiptxByKey := GroupByKey(hiptx);
    summary := [];
    for i := 0 to |events|
      invariant Summarizes(summary, Pairs(events[..i], orders), patch, hiptx)
    {
      assert events[..i + 1][..i] == events[..i];
      var rows := SummarizeEvent(events[i], orders, patchByKey, hiptxByKey, patch, hiptx);
      SummarizesConcat(summary, rows, Pairs(events[..i], orders), PairsFor(events[i], orders), patch, hiptx);
      summary := summary + rows;
    }
    assert events[..|events|] == events;
  }

  // ---------------------------------------------------------------- rows are conserved

  function PatchTotal(rows: seq<SummaryRow>): nat {
    if rows == [] then 0 else PatchTotal(rows[..|rows| - 1]) + rows[|rows| - 1].patchCount
  }

  function HiptxTotal(rows: seq<SummaryRow>): nat {
    if rows == [] then 0 else HiptxTotal(rows[..|rows| - 1]) + rows[|rows| - 1].hiptxCount
  }

  // How many of the pairs have the row's key.
  function Multiplicity(pairs: seq<(Event, nat)>, key: Key): nat {
    if pairs == [] then 0
    else
      var last := pairs[|pairs| - 1];
      Multiplicity(pairs[..|pairs| - 1], key) + if KeyFor(last.0, last.1) == key then 1 else 0
  }

  function MatchTotal(pairs: seq<(Event, nat)>, rows: seq<Row>): nat {
    if pairs == [] then 0
    else
      var last := pairs[|pairs| - 1];
      MatchTotal(pairs[..|pairs| - 1], rows) + |Matching(rows, KeyFor(last.0, last.1))|
  }

  function MultiplicityTotal(pairs: seq<(Event, nat)>, rows: seq<Row>): nat {
    if rows == [] then 0
    else MultiplicityTotal(pairs, rows[..|rows| - 1]) + Multiplicity(pairs, KeyOf(rows[|rows| - 1]))
  }

  lemma {:induction false} MatchTotalStep(pairs: seq<(Event, nat)>, rows: seq<Row>)
    requires rows != []
    ensures MatchTotal(pairs, rows)
         == MatchTotal(pairs, rows[..|rows| - 1]) + Multiplicity(pairs, KeyOf(rows[|rows| - 1]))
  {
    if pairs != [] {
      MatchTotalStep(pairs[..|pairs| - 1], rows);
    }
  }

  lemma {:induction false} NoRows(pairs: seq<(Event, nat)>)
    ensures MatchTotal(pairs, []) == 0
  {
    if pairs != [] {
      NoRows(pairs[..|pairs| - 1]);
    }
  }

  // Counting by pair and counting by row is the same.
  lemma {:induction false} CountBothWays(pairs: seq<(Event, nat)>, rows: seq<Row>)
    ensures MatchTotal(pairs, rows) == MultiplicityTotal(pairs, rows)
  {
    if rows == [] {
      NoRows(pairs);
    } else {
      CountBothWays(pairs, rows[..|rows| - 1]);
      MatchTotalStep(pairs, rows);
    }
  }

  lemma {:induction false} SummaryTotals(summary: seq<SummaryRow>, pairs: seq<(Event, nat)>, patch: seq<Row>, hiptx: seq<Row>)
    requires Summarizes(summary, pairs, patch, hiptx)
    ensures PatchTotal(summary) == MatchTotal(pairs, patch)
    ensures HiptxTotal(summary) == MatchTotal(pairs, hiptx)
  {
    if summary != [] {
      var n := |summary| - 1;
      SummaryTotals(summary[..n], pairs[..n], patch, hiptx);
    }
  }

  // Whether a row's key is among the events and processes.
  ghost predicate Indexed(pairs: seq<(Event, nat)>, key: Key) {
    exists i :: 0 <= i < |pairs| && KeyFor(pairs[i].0, pairs[i].1) == key
  }

  ghost function IndexedRows(pairs: seq<(Event, nat)>, rows: seq<Row>): nat {
    if rows == [] then 0
    else IndexedRows(pairs, rows[..|rows| - 1]) + if Indexed(pairs, KeyOf(rows[|rows| - 1])) then 1 else 0
  }

  lemma KeyForInjective(p: (Event, nat), q: (Event, nat))
    requires KeyFor(p.0, p.1) == KeyFor(q.0, q.1)
    ensures p == q
  {
    PaddingInjective(p.1, q.1);
  }

  lemma KeyForDiffers(p: (Event, nat), q: (Event, nat))
    requires p != q
    ensures KeyFor(p.0, p.1) != KeyFor(q.0, q.1)
  {
    if KeyFor(p.0, p.1) == KeyFor(q.0, q.1) {
      KeyForInjective(p, q);
    }
  }

  lemma {:induction false} MultiplicityIsOne(pairs: seq<(Event, nat)>, key: Key)
    requires Distinct(pairs)
    ensures Multiplicity(pairs, key) == if Indexed(pairs, key) then 1 else 0
  {
    if pairs != [] {
      var n := |pairs| - 1;
      var last := pairs[n];
      DistinctInit(pairs);
      MultiplicityIsOne(pairs[..n], key);
      var before := pairs[..n];
      forall i | 0 <= i < n ensures KeyFor(before[i].0, before[i].1) != KeyFor(last.0, last.1) {
        KeyForDiffers(before[i], last);
      }
      if Indexed(pairs, key) && KeyFor(last.0, last.1) != key {
        var i :| 0 <= i < |pairs| && KeyFor(pairs[i].0, pairs[i].1) == key;
        assert pairs[..n][i] == pairs[i];
      }
      if Indexed(pairs[..n], key) {
        var i :| 0 <= i < n && KeyFor(pairs[..n][i].0, pairs[..n][i].1) == key;
        assert KeyFor(pairs[i].0, pairs[i].1) == key;
      }
    }
  }

  lemma {:induction false} MultiplicityTotalIsIndexed(pairs: seq<(Event, nat)>, rows: seq<Row>)
    requires Distinct(pairs)
    ensures MultiplicityTotal(pairs, rows) == IndexedRows(pairs, rows)
  {
    if rows != [] {
      MultiplicityTotalIsIndexed(pairs, rows[..|rows| - 1]);
      MultiplicityIsOne(pairs, KeyOf(rows[|rows| - 1]));
    }
  }

  lemma {:induction false} PairsForMembers(e: Event, orders: seq<nat>)
    ensures forall p :: p in PairsFor(e, orders) ==> p.0 == e && p.1 in orders
    ensures Distinct(orders) ==> Distinct(PairsFor(e, orders))
  {
    if orders != [] {
      var n := |orders| - 1;
      PairsForMembers(e, orders[..n]);
      if Distinct(orders) {
        DistinctInit(orders);
        DistinctAppend(PairsFor(e, orders[..n]), (e, orders[n]));
      }
    }
  }

  lemma {:induction false} DistinctConcat<T>(a: seq<T>, b: seq<T>)
    requires Distinct(a) && Distinct(b) && forall x :: x in a ==> x !in b
    ensures Distinct(a + b)
  {
    if b == [] {
      assert a + b == a;
    } else {
      var n := |b| - 1;
      DistinctInit(b);
      DistinctConcat(a, b[..n]);
      DistinctAppend(a + b[..n], b[n]);
      assert a + b == (a + b[..n]) + [b[n]];
    }
  }

  lemma {:induction false} PairsDistinct(events: seq<Event>, orders: seq<nat>)
    requires Distinct(events) && Distinct(orders)
    ensures Distinct(Pairs(events, orders))
    ensures forall p :: p in Pairs(events, orders) ==> p.0 in events
  {
    if events != [] {
      var n := |events| - 1;
      DistinctInit(events);
      PairsDistinct(events[..n], orders);
      PairsForMembers(events[n], orders);
      DistinctConcat(Pairs(events[..n], orders), PairsFor(events[n], orders));
    }
  }

  // The join loses and repeats nothing: with distinct events and distinct process orders, the
  // counts over all summary rows add up to the number of measured rows whose key is known.
  lemma JoinConservesRows(events: seq<Event>, orders: seq<nat>, patch: seq<Row>, hiptx: seq<Row>, summary: seq<SummaryRow>)
    requires Distinct(events) && Distinct(orders)
    requires Summarizes(summary, Pairs(events, orders), patch, hiptx)
    ensures PatchTotal(summary) == IndexedRows(Pairs(events, orders), patch)
    ensures HiptxTotal(summary) == IndexedRows(Pairs(events, orders), hiptx)
  {
    var pairs := Pairs(events, orders);
    SummaryTotals(summary, pairs, patch, hiptx);
    CountBothWays(pairs, patch);
    CountBothWays(pairs, hiptx);
    PairsDistinct(events, orders);
    MultiplicityTotalIsIndexed(pairs, patch);
    MultiplicityTotalIsIndexed(pairs, hiptx);
  }

  // ---------------------------------------------------------------- in plain terms

  // The rows of an event and process, told from the columns.
  ghost predicate Belongs(r: Row, e: Event, order: nat) {
    r.context == e.context && r.eventId == e.eventId && ZFill2(r.order) == ZFill2(NatText(order))
  }

  ghost function BelongingAt(rows: seq<Row>, e: Event, order: nat): set<nat> {
    set i: nat | i < |rows| && Belongs(rows[i], e, order)
  }

  lemma {:induction false} MatchingCounts(rows: seq<Row>, e: Event, order: nat)
    ensures |Matching(rows, KeyFor(e, order))| == |BelongingAt(rows, e, order)|
  {
    if rows != [] {
      var n := |rows| - 1;
      MatchingCounts(rows[..n], e, order);
      if Belongs(rows[n], e, order) {
        assert BelongingAt(rows, e, order) == BelongingAt(rows[..n], e, order) + {n};
      } else {
        assert BelongingAt(rows, e, order) == BelongingAt(rows[..n], e, order);
      }
    }
  }

  // A group holds its rows in their order.
  lemma {:induction false} MatchingInOrder(rows: seq<Row>, i: nat)
    requires i < |rows|
    ensures Matching(rows[..i], KeyOf(rows[i])) + [rows[i]] <= Matching(rows, KeyOf(rows[i]))
  {
    var n := |rows| - 1;
    if i < n {
      assert rows[..n][..i] == rows[..i];
      MatchingInOrder(rows[..n], i);
    }
  }

  lemma {:induction false} PairsForAt(e: Event, orders: seq<nat>, j: nat)
    requires j < |orders|
    ensures |PairsFor(e, orders)| == |orders| && PairsFor(e, orders)[j] == (e, orders[j])
  {
    var n := |orders| - 1;
    if j < n {
      PairsForAt(e, orders[..n], j);
    } else if n > 0 {
      PairsForAt(e, orders[..n], 0);
    } else {
      assert orders[..0] == [];
    }
  }

  lemma PairsForLength(e: Event, orders: seq<nat>)
    ensures |PairsFor(e, orders)| == |orders|
  {
    if orders != [] {
      PairsForAt(e, orders, 0);
    }
  }

  lemma {:induction false} PairsLength(events: seq<Event>, orders: seq<nat>)
    ensures |Pairs(events, orders)| == |events| * |orders|
  {
    if events != [] {
      var n := |events| - 1;
      PairsLength(events[..n], orders);
      PairsForLength(events[n], orders);
      NextMultiple(n, |orders|);
    }
  }

  lemma {:induction false} PairsAt(events: seq<Event>, orders: seq<nat>, i: nat, j: nat, at: nat)
    requires i < |events| && j < |orders| && at == i * |orders| + j
    ensures at < |Pairs(events, orders)| && Pairs(events, orders)[at] == (events[i], orders[j])
  {
    var n := |events| - 1;
    PairsLength(events[..n], orders);
    if i < n {
      PairsAt(events[..n], orders, i, j, at);
    } else {
      PairsForAt(events[n], orders, j);
    }
  }

  // The summary has one row for every event and process, events first, and each row counts the
  // measured rows of its event and process.
  lemma SummaryRowIs(events: seq<Event>, orders: seq<nat>, patch: seq<Row>, hiptx: seq<Row>, summary: seq<SummaryRow>,
                     pairs: seq<(Event, nat)>, i: nat, j: nat) returns (at: nat)
    requires pairs == Pairs(events, orders) && Summarizes(summary, pairs, patch, hiptx) && i < |events| && j < |orders|
    ensures |summary| == |events| * |orders| && at == i * |orders| + j && at < |summary|
    ensures summary[at].event == events[i] && summary[at].order == orders[j]
    ensures summary[at].patchCount == |BelongingAt(patch, events[i], orders[j])|
    ensures summary[at].hiptxCount == |BelongingAt(hiptx, events[i], orders[j])|
  {
    at := PairAt(events, orders, pairs, i, j);
    SummaryRowAt(summary, pairs, patch, hiptx, at, events[i], orders[j]);
  }

  lemma PairAt(events: seq<Event>, orders: seq<nat>, pairs: seq<(Event, nat)>, i: nat, j: nat) returns (at: nat)
    requires pairs == Pairs(events, orders) && i < |events| && j < |orders|
    ensures |pairs| == |events| * |orders| && at == i * |orders| + j && at < |pairs| && pairs[at] == (events[i], orders[j])
  {
    at := i * |orders| + j;
    PairsLength(events, orders);
    PairsAt(events, orders, i, j, at);
  }

  lemma SummaryRowAt(summary: seq<SummaryRow>, pairs: seq<(Event, nat)>, patch: seq<Row>, hiptx: seq<Row>,
                     at: nat, e: Event, order: nat)
    requires Summarizes(summary, pairs, patch, hiptx) && at < |pairs| && pairs[at] == (e, order)
    ensures |summary| == |pairs| && summary[at].event == e && summary[at].order == order
    ensures summary[at].patchCount == |BelongingAt(patch, e, order)|
    ensures summary[at].hiptxCount == |BelongingAt(hiptx, e, order)|
  {
    MatchingCounts(patch, e, order);
    MatchingCounts(hiptx, e, order);
  }
}
