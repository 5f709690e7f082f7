// index_ranges: runs of consecutive node indices as text such as "17-31".
module NodeRanges {
  import opened Decimal
  import opened Text

  datatype Range = Range(lo: nat, hi: nat)

  function RangeText(r: Range): string {
    if r.lo == r.hi then NatText(r.lo) else NatText(r.lo) + ['-'] + NatText(r.hi)
  }

  // A run of one index prints as that index, a longer one with a dash.
  lemma RangeTextIs(lo: nat, hi: nat)
    requires lo < hi
    ensures RangeText(Range(lo, lo)) == NatText(lo)
    ensures RangeText(Range(lo, hi)) == NatText(lo) + "-" + NatText(hi)
  {
  }

  ghost predicate AllDigits(s: string) {
    forall i :: 0 <= i < |s| ==> IsDigit(s[i])
  }

  // Reading a range back.
  ghost function RangeOf(s: string): Range {
    var i := Find(s, '-');
    if i == |s| then
      if AllDigits(s) then Range(NatValue(s), NatValue(s)) else Range(0, 0)
    else if AllDigits(s[..i]) && AllDigits(s[i + 1..]) then Range(NatValue(s[..i]), NatValue(s[i + 1..]))
    else Range(0, 0)
  }

  lemma NoDash(s: string)
    requires AllDigits(s)
    ensures '-' !in s
  {
  }

  lemma RangeRoundTrip(r: Range)
    ensures RangeOf(RangeText(r)) == r
  {
    var a, b := NatText(r.lo), NatText(r.hi);
    NatRoundTrip(r.lo);
    NatRoundTrip(r.hi);
    NoDash(a);
    if r.lo == r.hi {
      FindNone(a, '-');
    } else {
      FindIs(a, '-', b);
      var s := a + ['-'] + b;
      assert s[..|a|] == a && s[|a| + 1..] == b;
    }
  }

  function Run(lo: nat, hi: nat): (s: seq<nat>)
    requires lo <= hi
    ensures |s| == hi - lo + 1 && forall i :: 0 <= i < |s| ==> s[i] == lo + i
  {
    seq(hi - lo + 1, i => lo + i)
  }

  function Expand(ranges: seq<Range>): seq<nat>
    requires forall i :: 0 <= i < |ranges| ==> ranges[i].lo <= ranges[i].hi
  {
    if ranges == [] then []
    else Expand(ranges[..|ranges| - 1]) + Run(ranges[|ranges| - 1].lo, ranges[|ranges| - 1].hi)
  }

  ghost predicate Compressed(ranges: seq<Range>) {
    && (forall i :: 0 <= i < |ranges| ==> ranges[i].lo <= ranges[i].hi)
    && (forall i :: 0 <= i < |ranges| - 1 ==> ranges[i + 1].lo != ranges[i].hi + 1)
  }

  function Texts(ranges: seq<Range>): (r: seq<string>)
    ensures |r| == |ranges| && forall i :: 0 <= i < |r| ==> r[i] == RangeText(ranges[i])
  {
    seq(|ranges|, i requires 0 <= i < |ranges| => RangeText(ranges[i]))
  }

  ghost function Parsed(texts: seq<string>): (r: seq<Range>)
    ensures |r| == |texts| && forall i :: 0 <= i < |r| ==> r[i] == RangeOf(texts[i])
  {
    seq(|texts|, i requires 0 <= i < |texts| => RangeOf(texts[i]))
  }

  lemma ParsedTexts(ranges: seq<Range>)
    ensures Parsed(Texts(ranges)) == ranges
  {
    forall i | 0 <= i < |ranges| ensures Parsed(Texts(ranges))[i] == ranges[i] {
      RangeRoundTrip(ranges[i]);
    }
  }

  lemma TextsOneMore(ranges: seq<Range>, r: Range)
    ensures Texts(ranges + [r]) == Texts(ranges) + [RangeText(r)]
  {
  }

  ghost predicate Printed(texts: seq<string>, indices: seq<nat>) {
    Compressed(Parsed(texts)) && Expand(Parsed(texts)) == indices
  }

  // The indices read so far are the finished ranges and the run from start to prev, and the run
  // does not continue the last finished range.
  ghost predicate Reading(ranges: seq<Range>, start: nat, prev: nat, done: seq<nat>) {
    && Compressed(ranges) && start <= prev
    && (ranges != [] ==> start != ranges[|ranges| - 1].hi + 1)
    && Expand(ranges) + Run(start, prev) == done
  }

  lemma ContinueRun(ranges: seq<Range>, start: nat, prev: nat, done: seq<nat>)
    requires Reading(ranges, start, prev, done)
    ensures Reading(ranges, start, prev + 1, done + [prev + 1])
  {
    assert Run(start, prev + 1) == Run(start, prev) + [prev + 1];
  }

  lemma FinishRun(ranges: seq<Range>, start: nat, prev: nat, done: seq<nat>)
    requires Reading(ranges, start, prev, done)
    ensures Compressed(ranges + [Range(start, prev)]) && Expand(ranges + [Range(start, prev)]) == done
  {
    assert (ranges + [Range(start, prev)])[..|ranges|] == ranges;
  }

  lemma StartRun(ranges: seq<Range>, start: nat, prev: nat, done: seq<nat>, idx: nat)
    requires Reading(ranges, start, prev, done) && idx != prev + 1
    ensures Reading(ranges + [Range(start, prev)], idx, idx, done + [idx])
  {
    FinishRun(ranges, start, prev, done);
    assert Run(idx, idx) == [idx];
  }

  // The loop: all ranges but the last, and the run that is still open.
  method CloseRuns(indices: seq<nat>) returns (texts: seq<string>, start: nat, prev: nat, ghost ranges: seq<Range>)
    requires indices != []
    ensures texts == Texts(ranges) && Reading(ranges, start, prev, indices)
  {
    texts, ranges := [], [];
    start, prev := indices[0], indices[0];
    assert Run(start, prev) == [start] == indices[..1];
    for k := 1 to |indices|
      invariant texts == Texts(ranges) && Reading(ranges, start, prev, indices[..k])
    {
      var idx := indices[k];
      assert indices[..k + 1] == indices[..k] + [idx];
      if idx == prev + 1 {
        ContinueRun(ranges, start, prev, indices[..k]);
        prev := idx;
      } else {
        StartRun(ranges, start, prev, indices[..k], idx);
        TextsOneMore(ranges, Range(start, prev));
        texts := texts + [RangeText(Range(start, prev))];
        ranges := ranges + [Range(start, prev)];
        start, prev := idx, idx;
      }
    }
    assert indices[..|indices|] == indices;
  }

  // Reading the printed ranges back and expanding them gives the original list, for any list of
  // naturals, and no two neighbouring ranges could have been one.
  method IndexRanges(indices: seq<nat>) returns (texts: seq<string>)
    ensures Printed(texts, indices)
  {
    if indices == [] {
      NothingPrinted();
      return [];
    }
    var start, prev;
    ghost var ranges;
    texts, start, prev, ranges := CloseRuns(indices);
    AllPrinted(ranges, start, prev, indices);
    texts := texts + [RangeText(Range(start, prev))];
  }

  lemma NothingPrinted()
    ensures Printed([], [])
  {
    assert Parsed([]) == [];
  }

  lemma AllPrinted(ranges: seq<Range>, start: nat, prev: nat, indices: seq<nat>)
    requires Reading(ranges, start, prev, indices)
    ensures Printed(Texts(ranges) + [RangeText(Range(start, prev))], indices)
  {
    FinishRun(ranges, start, prev, indices);
    TextsOneMore(ranges, Range(start, prev));
    ParsedTexts(ranges + [Range(start, prev)]);
  }

  // A list ends in the run, and the run cannot be longer.
  ghost predicate EndsInRun(s: seq<nat>, k: nat) {
    && k < |s| && (k > 0 ==> s[k] != s[k - 1] + 1)
    && forall i :: k < i < |s| ==> s[i] == s[i - 1] + 1
  }

  lemma LastOfExpand(p: seq<Range>)
    requires Compressed(p) && p != []
    ensures |Expand(p)| > 0 && Expand(p)[|Expand(p)| - 1] == p[|p| - 1].hi
  {
  }

  lemma LastRunStarts(p: seq<Range>, before: seq<nat>)
    requires Compressed(p) && p != [] && before == Expand(p[..|p| - 1])
    ensures Expand(p) == before + Run(p[|p| - 1].lo, p[|p| - 1].hi)
    ensures EndsInRun(Expand(p), |before|)
  {
    var init, last := p[..|p| - 1], p[|p| - 1];
    if init != [] {
      LastOfExpand(init);
      assert init[|init| - 1] == p[|p| - 2];
    }
    RunIsLast(before, last.lo, last.hi);
  }

  lemma RunIsLast(before: seq<nat>, lo: nat, hi: nat)
    requires lo <= hi && (before != [] ==> lo != before[|before| - 1] + 1)
    ensures EndsInRun(before + Run(lo, hi), |before|)
  {
  }

  lemma LastRunUnique(s: seq<nat>, j: nat, k: nat)
    requires EndsInRun(s, j) && EndsInRun(s, k)
    ensures j == k
  {
  }

  lemma SameSplit(u: seq<nat>, v: seq<nat>, p: Range, q: Range)
    requires p.lo <= p.hi && q.lo <= q.hi && u + Run(p.lo, p.hi) == v + Run(q.lo, q.hi) && |u| == |v|
    ensures u == v && p == q
  {
    var s := u + Run(p.lo, p.hi);
    assert u == s[..|u|] && v == s[..|u|];
    assert Run(p.lo, p.hi) == s[|u|..] && Run(q.lo, q.hi) == s[|u|..];
    assert Run(p.lo, p.hi)[0] == p.lo && Run(q.lo, q.hi)[0] == q.lo;
  }

  lemma SameLastRun(p: seq<Range>, q: seq<Range>)
    requires Compressed(p) && Compressed(q) && Expand(p) == Expand(q) && p != [] && q != []
    ensures p[|p| - 1] == q[|q| - 1] && Expand(p[..|p| - 1]) == Expand(q[..|q| - 1])
  {
    var u, v := Expand(p[..|p| - 1]), Expand(q[..|q| - 1]);
    LastRunStarts(p, u);
    LastRunStarts(q, v);
    LastRunUnique(Expand(p), |u|, |v|);
    SameSplit(u, v, p[|p| - 1], q[|q| - 1]);
  }

  // There is only one such list of ranges.
  lemma {:induction false} CompressedIsUnique(p: seq<Range>, q: seq<Range>)
    requires Compressed(p) && Compressed(q) && Expand(p) == Expand(q)
    ensures |p| == |q| && forall i :: 0 <= i < |p| ==> p[i] == q[i]
    decreases |p|
  {
    if p != [] {
      LastOfExpand(p);
    }
    if q != [] {
      LastOfExpand(q);
    }
    if p != [] && q != [] {
      SameLastRun(p, q);
      var p', q' := p[..|p| - 1], q[..|q| - 1];
      CompressedIsUnique(p', q');
      forall i | 0 <= i < |p| ensures p[i] == q[i] {
        if i < |p'| {
          assert p'[i] == q'[i];
        }
      }
    }
  }
}
