/** Small facts about products and quotients that the solver needs spelled out. */
module Arithmetic {

  function Min(a: int, b: int): (m: int)
    ensures m <= a && m <= b && (m == a || m == b)
  {
    if a <= b then a else b
  }

  function Max(a: int, b: int): (m: int)
    ensures m >= a && m >= b && (m == a || m == b)
  {
    if a <= b then b else a
  }

  lemma MulAtLeast(a: nat, b: nat)
    requires a >= 1
    ensures a * b >= b
  {
  }

  lemma DivUnique(x: int, d: int, q: int, r: int)
    requires 0 <= r < d && x == q * d + r
    ensures x / d == q && x % d == r
  {
    var q', r' := x / d, x % d;
    assert (q - q') * d == r' - r;
    if q > q' {
      MulAtLeast(q - q', d);
    } else if q < q' {
      assert (q' - q) * d == r - r';
      MulAtLeast(q' - q, d);
    }
  }

  lemma DivStep(i: nat, B: nat)
    requires 1 <= B <= i
    ensures i / B == (i - B) / B + 1 && i % B == (i - B) % B
  {
    var q, r := (i - B) / B, (i - B) % B;
    assert (q + 1) * B == q * B + B;
    DivUnique(i, B, q + 1, r);
  }

  lemma Distribute(c: int, a: int, b: int)
    ensures c * (a + b) == c * a + c * b
  {
  }

  lemma ScaleUp(c: nat, a: int, b: int)
    requires a <= b
    ensures c * a <= c * b
  {
  }

  lemma DistributeLeft(a: int, b: int, c: int)
    ensures (a + b) * c == a * c + b * c
  {
  }

  lemma MulMono(a: real, b: real, c: real)
    requires a <= b && c > 0.0
    ensures a * c <= b * c
  {
  }

  lemma MulStrict(a: real, b: real, c: real)
    requires a < b && c > 0.0
    ensures a * c < b * c
  {
  }

  lemma QuotientLess(x: real, c: real, bound: real)
    requires c > 0.0 && x / c < bound
    ensures x < bound * c
  {
    var q := x / c;
    assert x == q * c;
    MulStrict(q, bound, c);
  }

  lemma RealDistribute(a: real, b: real, c: real)
    ensures (a + b) * c == a * c + b * c
  {
  }

  /** Positions in a sequence, one place further on. */
  function Shift(p: seq<nat>): (r: seq<nat>) {
    seq(|p|, k requires 0 <= k < |p| => p[k] + 1)
  }

  lemma ShiftMeans(p: seq<nat>)
    ensures |Shift(p)| == |p| && forall k :: 0 <= k < |p| ==> Shift(p)[k] == p[k] + 1
    ensures forall i :: i in Shift(p) <==> i >= 1 && (i - 1) in p
  {
    forall i | i >= 1 && (i - 1) in p ensures i in Shift(p) {
      var k :| 0 <= k < |p| && p[k] == i - 1;
      assert Shift(p)[k] == i;
    }
  }
}
