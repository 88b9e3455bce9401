/** Integer arithmetic shared by the components. */
module Indexing {

  function Min(a: int, b: int): int { if a < b then a else b }

  function Max(a: int, b: int): int { if a > b then a else b }

  /** Division that truncates toward zero. */
  function TruncDiv(a: int, d: int): int
    requires d > 0
  {
    if a >= 0 then a / d else -((-a) / d)
  }

  function Fraction(num: int, den: nat): real
    requires den > 0
  {
    num as real / den as real
  }

  lemma QuotientUnique(q: int, r: int, q': int, r': int, s: int)
    requires 0 <= r < s && 0 <= r' < s && q * s + r == q' * s + r'
    ensures q == q'
  {
    if q > q' { MulMono(q' + 1, q, s); }
    if q < q' { MulMono(q + 1, q', s); }
  }

  lemma DivUnique(a: int, s: int, q: int, r: int)
    requires s > 0 && 0 <= r < s && a == q * s + r
    ensures a / s == q && a % s == r
  {
    QuotientUnique(a / s, a % s, q, r, s);
  }

  lemma DivShift(a: int, s: int, q: int)
    requires s > 0
    ensures (a + q * s) / s == a / s + q && (a + q * s) % s == a % s
  {
    assert a + q * s == (a / s + q) * s + a % s;
    DivUnique(a + q * s, s, a / s + q, a % s);
  }

  lemma MulMono(a: int, b: int, s: int)
    requires a <= b && s >= 0
    ensures a * s <= b * s
  {
  }

  lemma DivBelow(k: int, s: int, n: int)
    requires s > 0 && k >= 0
    ensures k < n * s <==> k / s < n
  {
    assert k == (k / s) * s + k % s;
    if k / s < n { MulMono(k / s + 1, n, s); } else { MulMono(n, k / s, s); }
  }

  lemma DivMonotone(a: int, b: int, d: int)
    requires d > 0 && 0 <= a <= b
    ensures 0 <= a / d <= b / d
  {
    DivBelow(a, d, b / d + 1);
    DivBelow(b, d, b / d + 1);
    DivBelow(a, d, 0);
  }

  lemma TruncDivMonotone(a: int, b: int, d: int)
    requires d > 0 && a <= b
    ensures TruncDiv(a, d) <= TruncDiv(b, d)
  {
    if a >= 0 { DivMonotone(a, b, d); }
    else if b < 0 { DivMonotone(-b, -a, d); }
    else {
      DivMonotone(0, -a, d);
      DivMonotone(0, b, d);
    }
  }

  function Pow2(k: nat): (p: nat)
    ensures p >= 1
  {
    if k == 0 then 1 else 2 * Pow2(k - 1)
  }

  function ShiftLeft(a: nat, k: nat): nat { a * Pow2(k) }

  function ShiftRight(a: nat, k: nat): nat {
    DivMonotone(0, a, Pow2(k));
    a / Pow2(k)
  }

  lemma {:induction false} Pow2Split(a: nat, b: nat)
    ensures Pow2(a + b) == Pow2(a) * Pow2(b)
  {
    if a > 0 {
      Pow2Split(a - 1, b);
      assert Pow2(a + b) == 2 * Pow2((a - 1) + b);
    } else {
      assert Pow2(0 + b) == 1 * Pow2(b);
    }
  }
}
