// Rounding up to a multiple, as exact arithmetic and as 64-bit unsigned arithmetic.
module Alignment {
  const U64: nat := 0x1_0000_0000_0000_0000

  function Min(a: nat, b: nat): nat { if a < b then a else b }

  predicate IsProduct(q: nat, g: nat, x: nat) {
    q * g == x
  }

  ghost predicate Multiple(x: nat, g: nat) {
    exists q: nat :: IsProduct(q, g, x)
  }

  function AlignUp(x: nat, g: nat): nat
    requires g > 0
  {
    ((x + g - 1) / g) * g
  }

  function CeilDiv(x: nat, g: nat): nat
    requires g > 0
  {
    (x + g - 1) / g
  }

  // (x + g - 1) / g * g computed on unsigned 64-bit words; only the sum can wrap.
  function AlignUp64(x: nat, g: nat): nat
    requires g > 0
  {
    var q: nat := ((x + g - 1) % U64) / g;
    q * g
  }

  function CeilDiv64(x: nat, g: nat): nat
    requires g > 0
  {
    ((x + g - 1) % U64) / g
  }

  lemma DivBounds(n: nat, g: nat)
    requires g > 0
    ensures (n / g) * g <= n < (n / g) * g + g
  {
    assert n == g * (n / g) + n % g;
  }

  lemma {:induction false} MulMonotone(p: nat, q: nat, g: nat)
    requires p <= q
    ensures p * g <= q * g
  {
    assert (q - p) * g >= 0;
    assert q * g == p * g + (q - p) * g;
  }

  lemma MulOrder(p: nat, q: nat, g: nat)
    ensures p <= q ==> p * g <= q * g
  {
    if p <= q {
      MulMonotone(p, q, g);
    }
  }

  lemma NextMultiple(q: nat, g: nat)
    ensures (q + 1) * g == q * g + g
  {
  }

  // Quotient and remainder are unique.
  lemma QuotientUnique(q: nat, r: nat, n: nat)
    requires r < n
    ensures (q * n + r) / n == q && (q * n + r) % n == r
  {
    var x := q * n + r;
    var d := x / n;
    DivBounds(x, n);
    NextMultiple(d, n);
    NextMultiple(q, n);
    if d < q {
      MulMonotone(d + 1, q, n);
    } else if q < d {
      MulMonotone(q + 1, d, n);
    }
    assert x == n * d + x % n;
  }

  lemma CeilBounds(x: nat, g: nat)
    requires g > 0
    ensures x <= CeilDiv(x, g) * g < x + g
    ensures x > 0 ==> CeilDiv(x, g) > 0 && (CeilDiv(x, g) - 1) * g < x
  {
    var n := CeilDiv(x, g);
    DivBounds(x + g - 1, g);
    if x > 0 {
      assert n > 0;
      assert (n - 1) * g == n * g - g;
    }
  }

  // AlignUp gives the least multiple of g that is not below x.
  lemma AlignUpIsLeast(x: nat, g: nat)
    requires g > 0
    ensures Multiple(AlignUp(x, g), g)
    ensures x <= AlignUp(x, g) < x + g
    ensures forall y: nat :: Multiple(y, g) && x <= y ==> AlignUp(x, g) <= y
  {
    var n := CeilDiv(x, g);
    CeilBounds(x, g);
    assert IsProduct(n, g, AlignUp(x, g));
    forall y: nat | Multiple(y, g) && x <= y ensures AlignUp(x, g) <= y {
      var q: nat :| IsProduct(q, g, y);
      MulOrder(n, q, g);
      if x > 0 {
        MulOrder(q, n - 1, g);
      }
    }
  }

  lemma AlignedIsFixed(x: nat, g: nat)
    requires g > 0
    ensures AlignUp(x, g) == x <==> Multiple(x, g)
  {
    AlignUpIsLeast(x, g);
  }

  lemma SmallQuotient(r: nat, g: nat)
    requires r < g
    ensures r / g == 0
  {
  }

  // On 64-bit words the rounding is right exactly when the sum does not wrap; if it wraps the
  // result is 0.
  lemma AlignUp64Exact(x: nat, g: nat)
    requires 0 < g < U64 && x < U64
    ensures AlignUp64(x, g) == (if x + g - 1 < U64 then AlignUp(x, g) else 0)
    ensures AlignUp64(x, g) >= x <==> x + g - 1 < U64
    ensures AlignUp64(x, g) < U64
  {
    var s := x + g - 1;
    CeilBounds(x, g);
    if s < U64 {
      assert s % U64 == s;
      DivBounds(s, g);
    } else {
      var r := s - U64;
      assert s % U64 == r;
      assert r < g;
      SmallQuotient(r, g);
    }
  }

  // The same for the quotient: a wrapped sum counts no chunks at all.
  lemma CeilDiv64Exact(x: nat, g: nat)
    requires 0 < g < U64 && 0 < x < U64
    ensures CeilDiv64(x, g) == (if x + g - 1 < U64 then CeilDiv(x, g) else 0)
    ensures CeilDiv64(x, g) == CeilDiv(x, g) <==> x + g - 1 < U64
  {
    var s := x + g - 1;
    CeilBounds(x, g);
    if s < U64 {
      assert s % U64 == s;
    } else {
      var r := s - U64;
      assert s % U64 == r;
      assert r < g;
      SmallQuotient(r, g);
    }
  }
}
