// Masked top-k selection for decode: every row may only pick positions up to its own end.
module TopKDecode {
  import opened Alignment
  import opened Sequences
  import opened Sets

  datatype Score = NegInf | Finite(x: real)

  predicate AtMost(a: Score, b: Score) {
    a.NegInf? || (b.Finite? && a.x <= b.x)
  }

  // Logits with every position after `end` masked out.
  function Masked(row: seq<real>, end: int): (r: seq<Score>)
    ensures |r| == |row|
    ensures forall i :: 0 <= i < |r| ==> r[i] == if i <= end then Finite(row[i]) else NegInf
  {
    seq(|row|, i requires 0 <= i < |row| => if i <= end then Finite(row[i]) else NegInf)
  }

  // What torch.topk promises: indices of the largest values, largest first, ties in any order.
  ghost predicate IsTopK(values: seq<Score>, picks: seq<nat>) {
    && (forall i :: 0 <= i < |picks| ==> picks[i] < |values|)
    && Distinct(picks)
    && (forall i, j :: 0 <= i < j < |picks| ==> AtMost(values[picks[j]], values[picks[i]]))
    && (forall p, i :: 0 <= p < |values| && p !in picks && 0 <= i < |picks| ==> AtMost(values[p], values[picks[i]]))
  }

  // Such a selection always exists.
  lemma {:induction false} TopKExists(values: seq<Score>, k: nat) returns (picks: seq<nat>)
    requires k <= |values|
    ensures |picks| == k && IsTopK(values, picks)
  {
    if k == 0 {
      picks := [];
    } else {
      var before := TopKExists(values, k - 1);
      var free := MissingBelow(before, |values|);
      var best := LargestFree(values, before, free, |values|);
      DistinctAppend(before, best);
      picks := before + [best];
    }
  }

  // The largest among the unpicked positions below n.
  lemma {:induction false} LargestFree(values: seq<Score>, picks: seq<nat>, free: nat, n: nat) returns (best: nat)
    requires free < |values| && free !in picks && n <= |values|
    ensures best < |values| && best !in picks && AtMost(values[free], values[best])
    ensures forall p :: 0 <= p < n && p !in picks ==> AtMost(values[p], values[best])
  {
    if n == 0 {
      best := free;
    } else {
      best := LargestFree(values, picks, free, n - 1);
      if n - 1 !in picks && !AtMost(values[n - 1], values[best]) {
        best := n - 1;
      }
    }
  }

  // ---------------------------------------------------------------- counting picks

  function Below(n: nat): (s: set<nat>)
    ensures forall p: nat :: p in s <==> p < n
    ensures |s| == n
  {
    if n == 0 then {} else Below(n - 1) + {n - 1}
  }

  function PickSet(picks: seq<nat>): set<nat> {
    set p | p in picks
  }

  lemma {:induction false} PickSetSize(picks: seq<nat>)
    ensures |PickSet(picks)| <= |picks|
    ensures Distinct(picks) ==> |PickSet(picks)| == |picks|
  {
    if picks != [] {
      var n := |picks| - 1;
      PickSetSize(picks[..n]);
      assert picks == picks[..n] + [picks[n]];
      assert PickSet(picks) == PickSet(picks[..n]) + {picks[n]};
      if Distinct(picks) {
        DistinctInit(picks);
      }
    }
  }

  // Fewer than n picks miss some position below n.
  lemma MissingBelow(picks: seq<nat>, n: nat) returns (p: nat)
    requires |picks| < n
    ensures p < n && p !in picks
  {
    var picked := PickSet(picks);
    PickSetSize(picks);
    if Below(n) <= picked {
      SubsetCardinality(Below(n), picked);
      assert false;
    }
    p :| p in Below(n) && p !in picked;
  }

  // Distinct picks below n are at most n.
  lemma DistinctBelow(picks: seq<nat>, n: nat)
    requires Distinct(picks) && forall i :: 0 <= i < |picks| ==> picks[i] < n
    ensures |picks| <= n
  {
    PickSetSize(picks);
    SubsetCardinality(PickSet(picks), Below(n));
  }

  // ---------------------------------------------------------------- one row

  // topk_indices[topk_indices > index_end_pos] = -1
  function KeepUpTo(pick: nat, end: int): int {
    if pick > end then -1 else pick
  }

  function Output(picks: seq<nat>, end: int): (r: seq<int>)
    ensures |r| == |picks|
    ensures forall i :: 0 <= i < |r| ==> r[i] == KeepUpTo(picks[i], end)
  {
    seq(|picks|, i requires 0 <= i < |picks| => KeepUpTo(picks[i], end))
  }

  // How many positions of a row of length n are not masked.
  function Valid(n: nat, end: int): nat {
    if end < 0 then 0 else if end + 1 < n then end + 1 else n
  }

  lemma ValidPicksFirst(row: seq<real>, end: int, picks: seq<nat>, i: nat)
    requires IsTopK(Masked(row, end), picks) && i < Min(|picks|, Valid(|row|, end))
    ensures picks[i] <= end
  {
    var values := Masked(row, end);
    var p := MissingBelow(picks[..i], Valid(|row|, end));
    assert values[p].Finite?;
    if p in picks {
      var j :| 0 <= j < |picks| && picks[j] == p;
      assert forall k :: 0 <= k < i ==> picks[..i][k] == picks[k];
      assert i < j ==> AtMost(values[picks[j]], values[picks[i]]);
    } else {
      assert AtMost(values[p], values[picks[i]]);
    }
  }

  lemma MaskedPicksLast(row: seq<real>, end: int, picks: seq<nat>, i: nat)
    requires IsTopK(Masked(row, end), picks) && Valid(|row|, end) <= i < |picks|
    ensures picks[i] > end
  {
    var v := Valid(|row|, end);
    if picks[i] <= end {
      var chosen := picks[..v] + [picks[i]];
      forall j | 0 <= j < |chosen| ensures chosen[j] < v {
        if j < v {
          ValidPicksFirst(row, end, picks, j);
        }
      }
      forall a: nat, b: nat | a < b < |chosen| ensures Differ(chosen, a, b) {
        assert Differ(picks, a, if b < v then b else i);
      }
      DistinctBelow(chosen, v);
    }
  }

  // The masked selection is the selection from the unmasked prefix: its entries come first, as
  // many as K and the prefix allow, and everything after them is -1.
  lemma DecodeRow(row: seq<real>, end: int, picks: seq<nat>)
    requires IsTopK(Masked(row, end), picks)
    ensures var v := Min(|picks|, Valid(|row|, end));
            && (forall i :: 0 <= i < v ==> Output(picks, end)[i] == picks[i])
            && (forall i :: v <= i < |picks| ==> Output(picks, end)[i] == -1)
            && IsTopK(Masked(row[..Valid(|row|, end)], end), picks[..v])
  {
    var n := Valid(|row|, end);
    var v := Min(|picks|, n);
    forall i | 0 <= i < v ensures picks[i] <= end {
      ValidPicksFirst(row, end, picks, i);
    }
    forall i | v <= i < |picks| ensures picks[i] > end {
      MaskedPicksLast(row, end, picks, i);
    }
    PrefixSelection(row, end, picks, v);
  }

  lemma PrefixSelection(row: seq<real>, end: int, picks: seq<nat>, v: nat)
    requires IsTopK(Masked(row, end), picks) && v == Min(|picks|, Valid(|row|, end))
    requires forall i :: 0 <= i < v ==> picks[i] <= end
    requires forall i :: v <= i < |picks| ==> picks[i] > end
    ensures IsTopK(Masked(row[..Valid(|row|, end)], end), picks[..v])
  {
    var n := Valid(|row|, end);
    var values, prefix, first := Masked(row, end), Masked(row[..n], end), picks[..v];
    assert forall p :: 0 <= p < n ==> prefix[p] == values[p];
    forall a: nat, b: nat | a < b < v ensures Differ(first, a, b) {
      assert Differ(picks, a, b);
    }
    forall p, i | 0 <= p < n && p !in first && 0 <= i < v ensures AtMost(prefix[p], prefix[first[i]]) {
      forall j | 0 <= j < |picks| ensures picks[j] != p {
        if j < v {
          assert first[j] == picks[j];
        }
      }
      assert AtMost(values[p], values[picks[i]]);
    }
  }

  // The same in plain terms: entry c is a position exactly if c does not exceed the end position,
  // every position lies in the row up to its end, no position repeats, larger logits come first,
  // and no position up to the end that was left out has a larger logit.
  lemma DecodeRowPlainly(row: seq<real>, end: int, picks: seq<nat>)
    requires IsTopK(Masked(row, end), picks)
    ensures var out := Output(picks, end);
            && (forall c :: 0 <= c < |out| ==> (out[c] != -1 <==> c <= end))
            && (forall c :: 0 <= c < |out| && out[c] != -1 ==> 0 <= out[c] <= end && out[c] < |row|)
            && (forall c, d :: 0 <= c < d < |out| && out[c] != -1 ==> out[c] != out[d])
            && (forall c, d :: 0 <= c < d < |out| && out[c] != -1 && out[d] != -1 && out[c] < |row| && out[d] < |row| ==>
                  row[out[d]] <= row[out[c]])
            && (forall p, c :: 0 <= p < |row| && p <= end && p !in out && 0 <= c < |out| && out[c] != -1 && out[c] < |row| ==>
                  row[p] <= row[out[c]])
  {
    var out, values := Output(picks, end), Masked(row, end);
    var v := Min(|picks|, Valid(|row|, end));
    DecodeRow(row, end, picks);
    DistinctBelow(picks, |row|);
    forall c, d | 0 <= c < d < |out| && out[c] != -1 ensures out[c] != out[d] {
      assert Differ(picks, c, d);
    }
    forall c, d | 0 <= c < d < |out| && out[c] != -1 && out[d] != -1 && out[c] < |row| && out[d] < |row|
      ensures row[out[d]] <= row[out[c]]
    {
      assert AtMost(values[picks[d]], values[picks[c]]);
    }
    forall p, c | 0 <= p < |row| && p <= end && p !in out && 0 <= c < |out| && out[c] != -1 && out[c] < |row|
      ensures row[p] <= row[out[c]]
    {
      LeftOut(picks, end, p);
      assert AtMost(values[p], values[picks[c]]);
    }
  }

  lemma LeftOut(picks: seq<nat>, end: int, p: nat)
    requires p <= end && p !in Output(picks, end)
    ensures p !in picks
  {
    forall i | 0 <= i < |picks| ensures picks[i] != p {
      assert Output(picks, end)[i] in Output(picks, end);
    }
  }

  // ---------------------------------------------------------------- all rows

  // Row r belongs to sequence r // next_n, and is the (r % next_n)-th of its new tokens.
  function EndPosition(seqLens: seq<int>, nextN: nat, r: nat): int
    requires nextN > 0 && r < |seqLens| * nextN
  {
    RowInRange(|seqLens|, nextN, r);
    seqLens[r / nextN] - nextN + r % nextN
  }

  lemma RowInRange(batch: nat, nextN: nat, r: nat)
    requires nextN > 0 && r < batch * nextN
    ensures 0 <= r / nextN < batch
  {
    var q := r / nextN;
    assert r == q * nextN + r % nextN;
    MulOrder(batch, q, nextN);
  }

  // The o-th new token of sequence b sits at position seq_len - next_n + o, and may look at
  // everything up to itself.
  lemma RowSplit(seqLens: seq<int>, nextN: nat, b: nat, o: nat)
    requires b < |seqLens| && o < nextN
    ensures b * nextN + o < |seqLens| * nextN
    ensures EndPosition(seqLens, nextN, b * nextN + o) == seqLens[b] - nextN + o
  {
    QuotientUnique(b, o, nextN);
    NextMultiple(b, nextN);
    MulMonotone(b + 1, |seqLens|, nextN);
  }

  // top_k_per_row_decode writes the selections of all rows into the corner of the output tensor
  // and leaves the rest of it alone. `picks` is what the library's topk chose.
  method TopKPerRowDecode(logits: seq<seq<real>>, nextN: nat, seqLens: seq<int>, raw: array2<int>, k: nat,
                          picks: seq<seq<nat>>)
    requires nextN > 0 && |logits| == |picks| == |seqLens| * nextN
    requires raw.Length0 >= |logits| && raw.Length1 >= k
    requires forall r :: 0 <= r < |logits| ==>
               |picks[r]| == k && IsTopK(Masked(logits[r], EndPosition(seqLens, nextN, r)), picks[r])
    modifies raw
    ensures forall r, c :: 0 <= r < |logits| && 0 <= c < k ==>
              raw[r, c] == if c < Valid(|logits[r]|, EndPosition(seqLens, nextN, r)) then picks[r][c] else -1
    ensures forall r, c :: 0 <= r < raw.Length0 && 0 <= c < raw.Length1 && (r >= |logits| || c >= k) ==>
              raw[r, c] == old(raw[r, c])
    ensures forall r, c :: 0 <= r < |logits| && 0 <= c < k ==>
              && (raw[r, c] != -1 <==> c <= EndPosition(seqLens, nextN, r))
              && (raw[r, c] != -1 ==> 0 <= raw[r, c] <= EndPosition(seqLens, nextN, r))
  {
    for r := 0 to |logits|
      invariant forall s, c :: 0 <= s < r && 0 <= c < k ==>
                  raw[s, c] == if c < Valid(|logits[s]|, EndPosition(seqLens, nextN, s)) then picks[s][c] else -1
      invariant forall s, c :: 0 <= s < raw.Length0 && 0 <= c < raw.Length1 && (s >= r || c >= k) ==>
                  raw[s, c] == old(raw[s, c])
    {
      var end := EndPosition(seqLens, nextN, r);
      DecodeRow(logits[r], end, picks[r]);
      var output := Output(picks[r], end);
      forall c | 0 <= c < k {
        raw[r, c] := output[c];
      }
    }
    forall r, c | 0 <= r < |logits| && 0 <= c < k
      ensures raw[r, c] != -1 <==> c <= EndPosition(seqLens, nextN, r)
      ensures raw[r, c] != -1 ==> 0 <= raw[r, c] <= EndPosition(seqLens, nextN, r)
    {
      var end := EndPosition(seqLens, nextN, r);
      DecodeRow(logits[r], end, picks[r]);
      DecodeRowPlainly(logits[r], end, picks[r]);
      assert Output(picks[r], end)[c] == raw[r, c];
    }
  }
}
