// Splitting and joining text, and the zero-padded numbers that serve as join keys.
module Text {
  import opened Decimal

  function Find(s: string, c: char): (i: nat)
    ensures i <= |s| && c !in s[..i] && (i < |s| ==> s[i] == c)
  {
    if s == [] || s[0] == c then 0 else
      var j := Find(s[1..], c);
      assert s[..1 + j] == [s[0]] + s[1..][..j];
      1 + j
  }

  lemma {:induction false} FindIs(a: string, c: char, rest: string)
    requires c !in a
    ensures Find(a + [c] + rest, c) == |a|
  {
    var s := a + [c] + rest;
    var i := Find(s, c);
    assert s[|a|] == c;
    assert forall k :: 0 <= k < |a| ==> a[k] == s[k];
    assert forall k :: 0 <= k < i ==> s[..i][k] == s[k];
  }

  lemma FindNone(s: string, c: char)
    requires c !in s
    ensures Find(s, c) == |s|
  {
    assert forall k :: 0 <= k < |s| ==> s[k] != c;
  }

  function Split(s: string, c: char): (parts: seq<string>)
    ensures parts != []
    ensures forall i :: 0 <= i < |parts| ==> c !in parts[i]
  {
    var i := Find(s, c);
    if i == |s| then
      assert s[..i] == s;
      [s]
    else [s[..i]] + Split(s[i + 1..], c)
  }

  function Join(parts: seq<string>, c: char): string
    requires parts != []
  {
    if |parts| == 1 then parts[0] else parts[0] + [c] + Join(parts[1..], c)
  }

  // Splitting undoes joining when no part holds the separator.
  lemma {:induction false} SplitJoin(parts: seq<string>, c: char)
    requires parts != [] && forall i :: 0 <= i < |parts| ==> c !in parts[i]
    ensures Split(Join(parts, c), c) == parts
  {
    if |parts| == 1 {
      FindNone(parts[0], c);
    } else {
      var rest := Join(parts[1..], c);
      var s := parts[0] + [c] + rest;
      SplitJoin(parts[1..], c);
      FindIs(parts[0], c, rest);
      assert s[..|parts[0]|] == parts[0] && s[|parts[0]| + 1..] == rest;
    }
  }

  // Joining undoes splitting, for any text.
  lemma {:induction false} JoinSplit(s: string, c: char)
    ensures Join(Split(s, c), c) == s
    decreases |s|
  {
    var i := Find(s, c);
    if i < |s| {
      var rest := Split(s[i + 1..], c);
      JoinSplit(s[i + 1..], c);
      assert ([s[..i]] + rest)[1..] == rest;
      assert s == s[..i] + [c] + s[i + 1..];
    }
  }

  // ---------------------------------------------------------------- zero padding

  // str.zfill(2)
  function ZFill2(s: string): string {
    if |s| >= 2 then s
    else if |s| == 0 then "00"
    else if s[0] == '+' || s[0] == '-' then s + "0"
    else "0" + s
  }

  // f"{n:02d}"
  function Format02d(n: nat): string {
    if n < 10 then "0" + NatText(n) else NatText(n)
  }

  lemma {:induction false} NatTextLength(n: nat)
    ensures |NatText(n)| >= 2 <==> n >= 10
  {
    if n >= 10 {
      assert |NatText(n / 10)| >= 1;
    }
  }

  // The printer's padding and the summarizer's are the same, and padding twice changes nothing.
  lemma PaddingAgrees(n: nat)
    ensures Format02d(n) == ZFill2(NatText(n)) == ZFill2(ZFill2(NatText(n)))
  {
    NatTextLength(n);
  }

  lemma {:induction false} LeadingZero(s: string)
    requires forall i :: 0 <= i < |s| ==> IsDigit(s[i])
    ensures NatValue("0" + s) == NatValue(s)
  {
    if s == [] {
      assert "0" + s == "0";
      assert NatValue("0") == NatValue([]) * 10 + 0;
    } else {
      var n := |s| - 1;
      LeadingZero(s[..n]);
      assert ("0" + s)[..n + 1] == "0" + s[..n];
    }
  }

  lemma PaddedValue(n: nat)
    ensures forall i :: 0 <= i < |ZFill2(NatText(n))| ==> IsDigit(ZFill2(NatText(n))[i])
    ensures NatValue(ZFill2(NatText(n))) == n
  {
    NatRoundTrip(n);
    LeadingZero(NatText(n));
  }

  // Two digits at least: one zero in front of a single digit, nothing otherwise.
  lemma PaddedShape(n: nat)
    ensures n < 10 ==> Format02d(n) == ['0', DigitChar(n)]
    ensures n >= 10 ==> Format02d(n) == NatText(n)
  {
  }

  // Different orders have different keys.
  lemma PaddingInjective(m: nat, n: nat)
    requires ZFill2(NatText(m)) == ZFill2(NatText(n))
    ensures m == n
  {
    PaddedValue(m);
    PaddedValue(n);
  }
}
