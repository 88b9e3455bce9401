/** The time/frequency reorganisation of a band and its undoing (`haar1`, `deinterleave_hadamard`,
    `interleave_hadamard` and the two halves of `quant_band` in native/opus/celt/bands.c; section
    4.3.4.5 of RFC 6716). Samples are exact reals, and `c` is the exact Haar factor: 2*c*c == 1. */
module TimeFrequency {
  import opened Indexing

  // ---------------------------------------------------------------- the Haar butterfly

  predicate OddBlock(s: nat, k: nat)
    requires s > 0
  {
    (k / s) % 2 == 1
  }

  /** The other end of the butterfly of width `s` that index `k` belongs to. */
  function Partner(s: nat, k: nat): int
    requires s > 0
  {
    if OddBlock(s, k) then k - s else k + s
  }

  lemma PartnerBlock(s: nat, k: nat)
    requires s > 0
    ensures Partner(s, k) >= 0
    ensures Partner(s, k) / s == if OddBlock(s, k) then k / s - 1 else k / s + 1
  {
    DivShift(k, s, 1);
    DivShift(k, s, -1);
    if OddBlock(s, k) {
      DivBelow(k, s, 1);
    }
  }

  lemma PartnerFacts(s: nat, h: nat, k: nat)
    requires s > 0
    ensures Partner(s, k) >= 0
    ensures OddBlock(s, Partner(s, k)) == !OddBlock(s, k) && Partner(s, Partner(s, k)) == k
    ensures k < 2 * h * s <==> Partner(s, k) < 2 * h * s
  {
    PartnerBlock(s, k);
    DivBelow(k, s, 2 * h);
    DivBelow(Partner(s, k), s, 2 * h);
  }

  /** `h` butterflies per lane: everything from index 2*h*s on is left alone. */
  function HaarAt(c: real, x: seq<real>, h: nat, s: nat, k: nat): real
    requires s > 0 && 2 * h * s <= |x| && k < |x|
  {
    PartnerFacts(s, h, k);
    if k >= 2 * h * s then x[k] else Mix(c, OddBlock(s, k), x[k], x[Partner(s, k)])
  }

  /** The sum on the even end of a butterfly, the difference on the odd end. */
  function Mix(c: real, odd: bool, mine: real, other: real): real {
    if odd then c * other - c * mine else c * mine + c * other
  }

  function Haar(c: real, x: seq<real>, h: nat, s: nat): (y: seq<real>)
    requires s > 0 && 2 * h * s <= |x|
    ensures |y| == |x|
  {
    seq(|x|, k requires 0 <= k < |x| => HaarAt(c, x, h, s, k))
  }

  lemma MixTwice(c: real, odd: bool, a: real, b: real)
    requires 2.0 * c * c == 1.0
    ensures Mix(c, odd, Mix(c, odd, a, b), Mix(c, !odd, b, a)) == a
  {
    assert c * (c * a + c * b) == c * c * a + c * c * b;
    assert c * (c * a - c * b) == c * c * a - c * c * b;
    assert c * (c * b - c * a) == c * c * b - c * c * a;
    assert (2.0 * c * c) * a == a && (2.0 * c * c) * b == b;
  }

  /** `haar1` is its own inverse. */
  lemma HaarInvolution(c: real, x: seq<real>, h: nat, s: nat)
    requires 2.0 * c * c == 1.0 && s > 0 && 2 * h * s <= |x|
    ensures Haar(c, Haar(c, x, h, s), h, s) == x
  {
    var y := Haar(c, x, h, s);
    forall k | 0 <= k < |x| ensures HaarAt(c, y, h, s, k) == x[k] {
      PartnerFacts(s, h, k);
      if k < 2 * h * s {
        var p := Partner(s, k);
        PartnerFacts(s, h, p);
        assert y[k] == HaarAt(c, x, h, s, k) && y[p] == HaarAt(c, x, h, s, p);
        MixTwice(c, OddBlock(s, k), x[k], x[p]);
      }
    }
  }

  lemma FineParity(s: nat, q: nat, t: nat, k: nat)
    requires s > 0 && t == (2 * q) * s && t > 0
    ensures Partner(t, k) >= 0
    ensures OddBlock(s, Partner(t, k)) == OddBlock(s, k)
  {
    PartnerBlock(t, k);
    // a step of t crosses an even number of blocks of s
    if OddBlock(t, k) { EvenSteps(s, q, k - t, k); } else { EvenSteps(s, q, k, k + t); }
  }

  lemma EvenSteps(s: nat, q: nat, a: nat, b: nat)
    requires s > 0 && b == a + (2 * q) * s
    ensures OddBlock(s, a) == OddBlock(s, b)
  {
    DivShift(a, s, 2 * q);
  }

  lemma CoarseParity(s: nat, q: nat, t: nat, k: nat)
    requires s > 0 && q > 0 && t == q * (2 * s) && t > 0
    ensures Partner(s, k) >= 0
    ensures OddBlock(t, Partner(s, k)) == OddBlock(t, k)
  {
    // a step to the s-partner stays inside the block of 2*s, hence of t
    var m, r := k / (2 * s), k % (2 * s);
    var r' := if r >= s then r - s else r + s;
    assert k == m * (2 * s) + r;
    BlockParity(s, m, r, k);
    PartnerBlock(s, k);
    SameCoarseBlock(2 * s, q, t, m, r);
    SameCoarseBlock(2 * s, q, t, m, r');
  }

  lemma BlockParity(s: nat, m: nat, r: nat, k: nat)
    requires s > 0 && r < 2 * s && k == m * (2 * s) + r
    ensures OddBlock(s, k) == (r >= s)
  {
    DivShift(r, s, 2 * m);
    assert r + (2 * m) * s == k;
    if r >= s { DivUnique(r, s, 1, r - s); } else { DivUnique(r, s, 0, r); }
  }

  lemma SameCoarseBlock(b: nat, q: nat, t: nat, m: nat, r: nat)
    requires q > 0 && r < b && t == q * b && t > 0
    ensures (m * b + r) / t == m / q
  {
    var v, u := m / q, m % q;
    assert m == v * q + u;
    assert m * b == v * t + u * b by {
      assert m * b == (v * q) * b + u * b;
      assert (v * q) * b == v * (q * b);
    }
    MulMono(u + 1, q, b);
    assert (u + 1) * b == u * b + b;
    assert 0 <= u * b;
    DivUnique(m * b + r, t, v, u * b + r);
  }

  lemma MixCommutes(c: real, o: bool, u: bool, a: real, b: real, d: real, e: real)
    ensures Mix(c, o, Mix(c, u, a, b), Mix(c, u, d, e)) == Mix(c, u, Mix(c, o, a, d), Mix(c, o, b, e))
  {
    MixScaled(c, u, a, b);
    MixScaled(c, u, d, e);
    MixScaled(c, o, a, d);
    MixScaled(c, o, b, e);
  }

  lemma MixScaled(c: real, odd: bool, a: real, b: real)
    ensures c * Mix(c, odd, a, b) == if odd then c * c * b - c * c * a else c * c * a + c * c * b
  {
  }

  /** Butterflies of nested widths commute, even where the wider ones cover less of the band. */
  lemma HaarCommutes(c: real, x: seq<real>, h1: nat, s: nat, h2: nat, q: nat, t: nat)
    requires s > 0 && q > 0 && t == (2 * q) * s && t > 0
    requires 2 * h2 * t <= 2 * h1 * s <= |x|
    ensures Haar(c, Haar(c, x, h2, t), h1, s) == Haar(c, Haar(c, x, h1, s), h2, t)
  {
    var xs, xt := Haar(c, x, h1, s), Haar(c, x, h2, t);
    forall k | 0 <= k < |x| ensures HaarAt(c, xt, h1, s, k) == HaarAt(c, xs, h2, t, k) {
      HaarCommutesAt(c, x, h1, s, h2, q, t, k);
    }
  }

  lemma NestedPartners(s: nat, h1: nat, q: nat, t: nat, h2: nat, k: nat)
    requires s > 0 && q > 0 && t == (2 * q) * s && t > 0 && 2 * h2 * t <= 2 * h1 * s
    ensures Partner(s, k) >= 0 && Partner(t, k) >= 0
    ensures Partner(t, Partner(s, k)) == Partner(s, Partner(t, k))
    ensures OddBlock(t, Partner(s, k)) == OddBlock(t, k) && OddBlock(s, Partner(t, k)) == OddBlock(s, k)
    ensures k < 2 * h1 * s <==> Partner(s, k) < 2 * h1 * s
    ensures k < 2 * h2 * t <==> Partner(t, k) < 2 * h2 * t
    ensures k < 2 * h2 * t <==> Partner(s, k) < 2 * h2 * t
  {
    PartnerFacts(s, h1, k);
    PartnerFacts(t, h2, k);
    PartnersCommute(s, q, t, k);
    NestedRegion(s, q, t, h2, k);
  }

  lemma PartnersCommute(s: nat, q: nat, t: nat, k: nat)
    requires s > 0 && q > 0 && t == (2 * q) * s && t > 0
    ensures Partner(s, k) >= 0 && Partner(t, k) >= 0
    ensures Partner(t, Partner(s, k)) == Partner(s, Partner(t, k))
    ensures OddBlock(t, Partner(s, k)) == OddBlock(t, k) && OddBlock(s, Partner(t, k)) == OddBlock(s, k)
  {
    PartnerFacts(s, 0, k);
    PartnerFacts(t, 0, k);
    FineParity(s, q, t, k);
    assert t == q * (2 * s);
    CoarseParity(s, q, t, k);
  }

  lemma NestedRegion(s: nat, q: nat, t: nat, h2: nat, k: nat)
    requires s > 0 && t == (2 * q) * s
    ensures Partner(s, k) >= 0 && (k < 2 * h2 * t <==> Partner(s, k) < 2 * h2 * t)
  {
    RegionSplit(s, q, t, h2);
    PartnerFacts(s, 2 * h2 * q, k);
  }

  lemma RegionSplit(s: nat, q: nat, t: nat, h2: nat)
    requires t == (2 * q) * s
    ensures 2 * (2 * h2 * q) * s == 2 * h2 * t
  {
    assert 2 * (2 * h2 * q) == (2 * h2) * (2 * q);
    assert ((2 * h2) * (2 * q)) * s == (2 * h2) * ((2 * q) * s);
  }

  lemma HaarCommutesAt(c: real, x: seq<real>, h1: nat, s: nat, h2: nat, q: nat, t: nat, k: nat)
    requires s > 0 && q > 0 && t == (2 * q) * s && t > 0
    requires 2 * h2 * t <= 2 * h1 * s <= |x| && k < |x|
    ensures HaarAt(c, Haar(c, x, h2, t), h1, s, k) == HaarAt(c, Haar(c, x, h1, s), h2, t, k)
  {
    var xs, xt := Haar(c, x, h1, s), Haar(c, x, h2, t);
    NestedPartners(s, h1, q, t, h2, k);
    var ps, pt := Partner(s, k), Partner(t, k);
    if k < 2 * h1 * s {
      assert xt[k] == HaarAt(c, x, h2, t, k) && xt[ps] == HaarAt(c, x, h2, t, ps);
      if k < 2 * h2 * t {
        assert xs[k] == HaarAt(c, x, h1, s, k) && xs[pt] == HaarAt(c, x, h1, s, pt);
        NestedPartners(s, h1, q, t, h2, ps);
        NestedPartners(s, h1, q, t, h2, pt);
        MixCommutes(c, OddBlock(s, k), OddBlock(t, k), x[k], x[pt], x[ps], x[Partner(t, ps)]);
      }
    }
  }

  // ---------------------------------------------------------------- interleaving

  const ORDERY_TABLE: seq<nat> := [
    1, 0,
    3, 0, 2, 1,
    7, 0, 4, 3, 6, 1, 5, 2,
    15, 0, 8, 7, 12, 3, 11, 4, 14, 1, 9, 6, 13, 2, 10, 5]

  /** Row of `ordery_table` read backwards: where each position comes from. */
  const ORDERY_INVERSE: seq<nat> := [
    1, 0,
    1, 3, 2, 0,
    1, 5, 7, 3, 2, 6, 4, 0,
    1, 9, 13, 5, 7, 15, 11, 3, 2, 10, 14, 6, 4, 12, 8, 0]

  /** Strides the Hadamard ordering has a table row for. */
  predicate HasRow(stride: nat) { stride == 2 || stride == 4 || stride == 8 || stride == 16 }

  predicate GoodStride(stride: nat, hadamard: bool) { stride > 0 && (hadamard ==> HasRow(stride)) }

  function Ordery(stride: nat, hadamard: bool, i: nat): (o: nat)
    requires GoodStride(stride, hadamard) && i < stride
    ensures o < stride
  {
    if hadamard then ORDERY_TABLE[stride - 2 + i] else i
  }

  function OrderyInverse(stride: nat, hadamard: bool, v: nat): (i: nat)
    requires GoodStride(stride, hadamard) && v < stride
    ensures i < stride
  {
    if hadamard then ORDERY_INVERSE[stride - 2 + v] else v
  }

  lemma OrderyIsPermutation(stride: nat, hadamard: bool, i: nat)
    requires GoodStride(stride, hadamard) && i < stride
    ensures OrderyInverse(stride, hadamard, Ordery(stride, hadamard, i)) == i
    ensures Ordery(stride, hadamard, OrderyInverse(stride, hadamard, i)) == i
  {
    if hadamard {
      if stride == 2 { Row2IsPermutation(i); }
      else if stride == 4 { Row4IsPermutation(i); }
      else if stride == 8 { Row8IsPermutation(i); }
      else { Row16IsPermutation(i); }
    }
  }

  lemma Row2IsPermutation(i: nat)
    requires i < 2
    ensures OrderyInverse(2, true, Ordery(2, true, i)) == i == Ordery(2, true, OrderyInverse(2, true, i))
  {
  }

  lemma Row4IsPermutation(i: nat)
    requires i < 4
    ensures OrderyInverse(4, true, Ordery(4, true, i)) == i == Ordery(4, true, OrderyInverse(4, true, i))
  {
  }

  lemma Row8IsPermutation(i: nat)
    requires i < 8
    ensures OrderyInverse(8, true, Ordery(8, true, i)) == i == Ordery(8, true, OrderyInverse(8, true, i))
  {
  }

  lemma Row16IsPermutation(i: nat)
    requires i < 16
    ensures OrderyInverse(16, true, Ordery(16, true, i)) == i == Ordery(16, true, OrderyInverse(16, true, i))
  {
    if i < 8 { Row16FirstHalf(i); } else { Row16SecondHalf(i); }
  }

  lemma Row16FirstHalf(i: nat)
    requires i < 8
    ensures OrderyInverse(16, true, Ordery(16, true, i)) == i == Ordery(16, true, OrderyInverse(16, true, i))
  {
  }

  lemma Row16SecondHalf(i: nat)
    requires 8 <= i < 16
    ensures OrderyInverse(16, true, Ordery(16, true, i)) == i == Ordery(16, true, OrderyInverse(16, true, i))
  {
  }

  lemma GridIndex(j: nat, i: nat, n: nat, stride: nat)
    requires j < n && i < stride
    ensures j * stride + i < n * stride
    ensures (j * stride + i) / stride == j && (j * stride + i) % stride == i
  {
    MulMono(j + 1, n, stride);
    DivUnique(j * stride + i, stride, j, i);
  }

  lemma GridCell(k: nat, n: nat, stride: nat)
    requires k < n * stride
    ensures stride > 0 && n > 0 && k / stride < n && k % stride < stride
    ensures (k / stride) * stride + k % stride == k
  {
    DivBelow(k, stride, n);
  }

  /** `deinterleave_hadamard`: lane `i` of the interleaved band becomes contiguous block ordery[i]. */
  function DeinterleaveAt(x: seq<real>, n0: nat, stride: nat, hadamard: bool, k: nat): real
    requires GoodStride(stride, hadamard) && n0 * stride <= |x| && k < |x|
  {
    if k >= n0 * stride then x[k]
    else
      assert k < stride * n0;
      GridCell(k, stride, n0);
      var i, j := OrderyInverse(stride, hadamard, k / n0), k % n0;
      GridIndex(j, i, n0, stride);
      x[j * stride + i]
  }

  function Deinterleave(x: seq<real>, n0: nat, stride: nat, hadamard: bool): (y: seq<real>)
    requires GoodStride(stride, hadamard) && n0 * stride <= |x|
    ensures |y| == |x|
  {
    seq(|x|, k requires 0 <= k < |x| => DeinterleaveAt(x, n0, stride, hadamard, k))
  }

  function InterleaveAt(x: seq<real>, n0: nat, stride: nat, hadamard: bool, k: nat): real
    requires GoodStride(stride, hadamard) && n0 * stride <= |x| && k < |x|
  {
    if k >= n0 * stride then x[k]
    else
      GridCell(k, n0, stride);
      var i, j := k % stride, k / stride;
      GridIndex(Ordery(stride, hadamard, i), j, stride, n0);
      assert stride * n0 == n0 * stride;
      x[Ordery(stride, hadamard, i) * n0 + j]
  }

  function Interleave(x: seq<real>, n0: nat, stride: nat, hadamard: bool): (y: seq<real>)
    requires GoodStride(stride, hadamard) && n0 * stride <= |x|
    ensures |y| == |x|
  {
    seq(|x|, k requires 0 <= k < |x| => InterleaveAt(x, n0, stride, hadamard, k))
  }

  /** The two orderings undo each other, for every block length, stride and ordering. */
  lemma InterleaveInverse(x: seq<real>, n0: nat, stride: nat, hadamard: bool)
    requires GoodStride(stride, hadamard) && n0 * stride <= |x|
    ensures Interleave(Deinterleave(x, n0, stride, hadamard), n0, stride, hadamard) == x
    ensures Deinterleave(Interleave(x, n0, stride, hadamard), n0, stride, hadamard) == x
  {
    var d, u := Deinterleave(x, n0, stride, hadamard), Interleave(x, n0, stride, hadamard);
    DeinterleaveHoldsBlocks(x, n0, stride, hadamard);
    forall k | 0 <= k < |x| ensures InterleaveAt(d, n0, stride, hadamard, k) == x[k] {
      if k < n0 * stride { RoundTripThroughBlocks(x, d, n0, stride, hadamard, k); }
    }
    forall k | 0 <= k < |x| ensures DeinterleaveAt(u, n0, stride, hadamard, k) == x[k] {
      if k < n0 * stride { RoundTripThroughLanes(x, n0, stride, hadamard, k); }
    }
  }

  lemma BlockSource(x: seq<real>, n0: nat, stride: nat, hadamard: bool, i: nat, j: nat)
    requires GoodStride(stride, hadamard) && n0 * stride <= |x| && i < stride && j < n0
    ensures var p := Ordery(stride, hadamard, i) * n0 + j;
            && p < n0 * stride && j * stride + i < n0 * stride
            && DeinterleaveAt(x, n0, stride, hadamard, p) == x[j * stride + i]
  {
    GridIndex(Ordery(stride, hadamard, i), j, stride, n0);
    assert stride * n0 == n0 * stride;
    GridIndex(j, i, n0, stride);
    OrderyIsPermutation(stride, hadamard, i);
  }

  predicate InBlock(x: seq<real>, y: seq<real>, n0: nat, stride: nat, hadamard: bool, i: nat, j: nat)
    requires GoodStride(stride, hadamard) && i < stride
  {
    var p, q := Ordery(stride, hadamard, i) * n0 + j, j * stride + i;
    p < |y| && q < |x| && y[p] == x[q]
  }

  /** `y` holds the lanes of `x` as blocks. */
  ghost predicate HoldsBlocks(x: seq<real>, y: seq<real>, n0: nat, stride: nat, hadamard: bool)
    requires GoodStride(stride, hadamard)
  {
    forall i: nat, j: nat :: i < stride && j < n0 ==> InBlock(x, y, n0, stride, hadamard, i, j)
  }

  lemma DeinterleaveHoldsBlocks(x: seq<real>, n0: nat, stride: nat, hadamard: bool)
    requires GoodStride(stride, hadamard) && n0 * stride <= |x|
    ensures HoldsBlocks(x, Deinterleave(x, n0, stride, hadamard), n0, stride, hadamard)
  {
    forall i: nat, j: nat | i < stride && j < n0
      ensures InBlock(x, Deinterleave(x, n0, stride, hadamard), n0, stride, hadamard, i, j)
    {
      DeinterleaveHoldsBlock(x, n0, stride, hadamard, i, j);
    }
  }

  lemma DeinterleaveHoldsBlock(x: seq<real>, n0: nat, stride: nat, hadamard: bool, i: nat, j: nat)
    requires GoodStride(stride, hadamard) && n0 * stride <= |x| && i < stride && j < n0
    ensures InBlock(x, Deinterleave(x, n0, stride, hadamard), n0, stride, hadamard, i, j)
  {
    BlockSource(x, n0, stride, hadamard, i, j);
  }

  lemma RoundTripThroughBlocks(x: seq<real>, y: seq<real>, n0: nat, stride: nat, hadamard: bool, k: nat)
    requires GoodStride(stride, hadamard) && k < n0 * stride <= |x| == |y|
    requires HoldsBlocks(x, y, n0, stride, hadamard)
    ensures InterleaveAt(y, n0, stride, hadamard, k) == x[k]
  {
    GridCell(k, n0, stride);
    assert InBlock(x, y, n0, stride, hadamard, k % stride, k / stride);
  }

  lemma RoundTripThroughLanes(x: seq<real>, n0: nat, stride: nat, hadamard: bool, k: nat)
    requires GoodStride(stride, hadamard) && k < n0 * stride <= |x|
    ensures DeinterleaveAt(Interleave(x, n0, stride, hadamard), n0, stride, hadamard, k) == x[k]
  {
    assert k < stride * n0;
    GridCell(k, stride, n0);
    var v, j := k / n0, k % n0;
    var i := OrderyInverse(stride, hadamard, v);
    GridIndex(j, i, n0, stride);
    OrderyIsPermutation(stride, hadamard, v);
    assert InterleaveAt(x, n0, stride, hadamard, j * stride + i) == x[v * n0 + j];
  }

  // ---------------------------------------------------------------- recombining (tf_change > 0)

  /** Butterflies per lane at recombining level `k`: `haar1(X, N>>k, 1<<k)`. */
  function LevelPairs(n: nat, k: nat): nat { n / Pow2(k) / 2 }

  lemma LevelFits(n: nat, k: nat)
    ensures 2 * LevelPairs(n, k) * Pow2(k) <= n
  {
    var s := Pow2(k);
    assert n == (n / s) * s + n % s;
    MulMono(2 * LevelPairs(n, k), n / s, s);
  }

  function Level(c: real, x: seq<real>, n: nat, k: nat): (y: seq<real>)
    requires n <= |x|
    ensures |y| == |x|
  {
    LevelFits(n, k);
    Haar(c, x, LevelPairs(n, k), Pow2(k))
  }

  /** Levels `k..r`, lowest first. The source uses this order both ways. */
  function Recombine(c: real, x: seq<real>, n: nat, k: nat, r: nat): (y: seq<real>)
    requires n <= |x| && k <= r
    ensures |y| == |x|
    decreases r - k
  {
    if k == r then x else Recombine(c, Level(c, x, n, k), n, k + 1, r)
  }

  lemma LevelsCommute(c: real, x: seq<real>, n: nat, k: nat, l: nat)
    requires n <= |x| && k < l
    ensures Level(c, Level(c, x, n, l), n, k) == Level(c, Level(c, x, n, k), n, l)
  {
    var s, t, q := Pow2(k), Pow2(l), Pow2(l - k - 1);
    Pow2Split(l - k, k);
    assert Pow2(l - k) == 2 * q;
    LevelFits(n, k);
    LevelFits(n, l);
    var h1, h2 := LevelPairs(n, k), LevelPairs(n, l);
    RegionSplit(s, q, t, h2);
    // the coarser region is a whole number of the finer level's butterflies
    DivBelow(n, s, 2 * (2 * h2 * q));
    assert 2 * h2 * t <= 2 * h1 * s by {
      assert 2 * h2 * q <= h1;
      MulMono(2 * (2 * h2 * q), 2 * h1, s);
    }
    HaarCommutes(c, x, h1, s, h2, q, t);
  }

  lemma {:induction false} LevelPassesThrough(c: real, x: seq<real>, n: nat, k: nat, l: nat, r: nat)
    requires n <= |x| && k < l <= r
    ensures Recombine(c, Level(c, x, n, k), n, l, r) == Level(c, Recombine(c, x, n, l, r), n, k)
    decreases r - l
  {
    if l < r {
      LevelsCommute(c, x, n, k, l);
      LevelPassesThrough(c, Level(c, x, n, l), n, k, l + 1, r);
    }
  }

  /** Undoing the levels in the order they were applied works because they commute. */
  lemma {:induction false} RecombineInvolution(c: real, x: seq<real>, n: nat, k: nat, r: nat)
    requires 2.0 * c * c == 1.0 && n <= |x| && k <= r
    ensures Recombine(c, Recombine(c, x, n, k, r), n, k, r) == x
    decreases r - k
  {
    if k < r {
      var inner := Recombine(c, x, n, k + 1, r);
      LevelPassesThrough(c, x, n, k, k + 1, r);
      LevelFits(n, k);
      HaarInvolution(c, inner, LevelPairs(n, k), Pow2(k));
      RecombineInvolution(c, x, n, k + 1, r);
    }
  }

  // ---------------------------------------------------------------- time division (tf_change < 0)

  /** How often the while loop halves `nb`. */
  function TimeSteps(nb: nat, tf: int): (t: nat)
    ensures t <= (if tf < 0 then -tf else 0)
    decreases if tf < 0 then -tf else 0
  {
    if nb % 2 == 0 && tf < 0 then 1 + TimeSteps(nb / 2, tf + 1) else 0
  }

  lemma HalvesFit(nb: nat, b: nat, n: nat)
    requires nb * b <= n
    ensures 2 * (nb / 2) * b <= n && (nb / 2) * (2 * b) <= n
  {
    MulMono(2 * (nb / 2), nb, b);
    assert (nb / 2) * (2 * b) == 2 * (nb / 2) * b;
  }

  function TimeDivide(c: real, x: seq<real>, nb: nat, b: nat, t: nat): (y: seq<real>)
    requires nb * b <= |x| && (b > 0 || t == 0)
    ensures |y| == |x|
    decreases t
  {
    if t == 0 then x
    else
      HalvesFit(nb, b, |x|);
      TimeDivide(c, Haar(c, x, nb / 2, b), nb / 2, 2 * b, t - 1)
  }

  function TimeJoin(c: real, y: seq<real>, nb: nat, b: nat, t: nat): (x: seq<real>)
    requires nb * b <= |y| && (b > 0 || t == 0)
    ensures |x| == |y|
    decreases t
  {
    if t == 0 then y
    else
      HalvesFit(nb, b, |y|);
      Haar(c, TimeJoin(c, y, nb / 2, 2 * b, t - 1), nb / 2, b)
  }

  lemma {:induction false} TimeJoinInverse(c: real, x: seq<real>, nb: nat, b: nat, t: nat)
    requires 2.0 * c * c == 1.0 && nb * b <= |x| && (b > 0 || t == 0)
    ensures TimeJoin(c, TimeDivide(c, x, nb, b, t), nb, b, t) == x
    ensures TimeDivide(c, TimeJoin(c, x, nb, b, t), nb, b, t) == x
    decreases t
  {
    if t > 0 {
      HalvesFit(nb, b, |x|);
      TimeJoinInverse(c, Haar(c, x, nb / 2, b), nb / 2, 2 * b, t - 1);
      HaarInvolution(c, x, nb / 2, b);
      var inner := TimeJoin(c, x, nb / 2, 2 * b, t - 1);
      HaarInvolution(c, inner, nb / 2, b);
      TimeJoinInverse(c, x, nb / 2, 2 * b, t - 1);
    }
  }

  // ---------------------------------------------------------------- the whole reorganisation

  /** The local variables of `quant_band` after the analysis half: the recombining count, the block
      count and length before and after time division, and the number of time divisions. */
  datatype Layout = Layout(n: nat, long: bool, recombine: nat, b1: nat, nb1: nat, divides: nat, b0: nat, nb0: nat)

  function LayoutOf(n: nat, b: nat, tf: int): Layout
    requires b > 0
  {
    var r := if tf > 0 then tf else 0;
    var b1, nb1 := ShiftRight(b, r), ShiftLeft(n / b, r);
    var t := TimeSteps(nb1, tf);
    Layout(n, b == 1, r, b1, nb1, t, ShiftLeft(b1, t), ShiftRight(nb1, t))
  }

  /** What the callers of `quant_band` guarantee: at least one block, and for a single long block no
      more time divisions than `ordery_table` has rows for. */
  predicate GoodBand(n: nat, b: nat, tf: int) { b > 0 && (b == 1 ==> tf >= -4) }

  lemma LayoutFits(n: nat, b: nat, tf: int)
    requires GoodBand(n, b, tf)
    ensures var l := LayoutOf(n, b, tf);
            && l.nb1 * l.b1 <= n
            && (l.divides > 0 ==> l.b1 > 0)
            && (l.nb0 / Pow2(l.recombine)) * (l.b0 * Pow2(l.recombine)) <= n
            && (l.b0 > 1 ==> GoodStride(l.b0 * Pow2(l.recombine), l.long))
  {
    var l := LayoutOf(n, b, tf);
    assert n == (n / b) * b + n % b;
    if tf > 0 {
      var p := Pow2(l.recombine);
      assert l.divides == 0 && Pow2(0) == 1;
      assert b == (b / p) * p + b % p;
      assert l.nb1 * l.b1 == (n / b) * (p * (b / p));
      MulMono((b / p) * p, b, n / b);
      DivUnique(l.nb0, p, n / b, 0);
      if b == 1 { assert Pow2(tf) == 2 * Pow2(tf - 1); }
      assert l.b0 > 1 ==> l.b0 * p > 0;
    } else {
      assert Pow2(0) == 1;
      DividesFit(l.nb1, l.b1, tf);
      if b == 1 { assert Pow2(1) == 2 && Pow2(2) == 4 && Pow2(3) == 8 && Pow2(4) == 16; }
    }
  }

  lemma {:induction false} DividesFit(nb: nat, b: nat, tf: int)
    ensures var t := TimeSteps(nb, tf); (nb / Pow2(t)) * (b * Pow2(t)) == nb * b
    decreases if tf < 0 then -tf else 0
  {
    if nb % 2 == 0 && tf < 0 {
      var t := TimeSteps(nb / 2, tf + 1);
      DividesFit(nb / 2, 2 * b, tf + 1);
      HalveThenShift(nb, t);
      Regroup(nb / 2, b, Pow2(t));
    } else {
      assert Pow2(0) == 1;
    }
  }

  lemma Regroup(half: nat, b: nat, p: nat)
    ensures b * (2 * p) == (2 * b) * p && half * (2 * b) == (2 * half) * b
  {
  }

  lemma HalveThenShift(nb: nat, t: nat)
    ensures nb / Pow2(t + 1) == (nb / 2) / Pow2(t)
  {
    var p := Pow2(t);
    var q, r := (nb / 2) / p, (nb / 2) % p;
    assert nb / 2 == q * p + r;
    assert nb == q * (2 * p) + (2 * r + nb % 2);
    DivUnique(nb, 2 * p, q, 2 * r + nb % 2);
  }

  /** The encoder's half of `quant_band`, applied to the band before quantisation. */
  function Analyse(c: real, x: seq<real>, n: nat, b: nat, tf: int): (y: seq<real>)
    requires GoodBand(n, b, tf) && n <= |x|
    ensures |y| == |x|
  {
    var l := LayoutOf(n, b, tf);
    LayoutFits(n, b, tf);
    var x2 := TimeDivide(c, Recombine(c, x, n, 0, l.recombine), l.nb1, l.b1, l.divides);
    if l.b0 > 1
    then Deinterleave(x2, l.nb0 / Pow2(l.recombine), l.b0 * Pow2(l.recombine), l.long) else x2
  }

  /** The resynthesis half of `quant_band`, applied to the band after quantisation. */
  function Resynthesise(c: real, y: seq<real>, n: nat, b: nat, tf: int): (x: seq<real>)
    requires GoodBand(n, b, tf) && n <= |y|
    ensures |x| == |y|
  {
    var l := LayoutOf(n, b, tf);
    LayoutFits(n, b, tf);
    var y1 := if l.b0 > 1
              then Interleave(y, l.nb0 / Pow2(l.recombine), l.b0 * Pow2(l.recombine), l.long) else y;
    Recombine(c, TimeJoin(c, y1, l.nb1, l.b1, l.divides), n, 0, l.recombine)
  }

  /** In exact arithmetic the two halves are inverse to each other, for every band length, block count
      and tf_change: quantisation that leaves the band alone leaves the signal alone, and analysing
      a resynthesised band gives back the quantised values. */
  lemma ResynthesisInvertsAnalysis(c: real, x: seq<real>, n: nat, b: nat, tf: int)
    requires 2.0 * c * c == 1.0 && GoodBand(n, b, tf) && n <= |x|
    ensures Resynthesise(c, Analyse(c, x, n, b, tf), n, b, tf) == x
    ensures Analyse(c, Resynthesise(c, x, n, b, tf), n, b, tf) == x
  {
    var l := LayoutOf(n, b, tf);
    LayoutFits(n, b, tf);
    var n0, stride := l.nb0 / Pow2(l.recombine), l.b0 * Pow2(l.recombine);
    var x1 := Recombine(c, x, n, 0, l.recombine);
    var x2 := TimeDivide(c, x1, l.nb1, l.b1, l.divides);
    RecombineInvolution(c, x, n, 0, l.recombine);
    TimeJoinInverse(c, x1, l.nb1, l.b1, l.divides);
    if l.b0 > 1 {
      InterleaveInverse(x2, n0, stride, l.long);
      InterleaveInverse(x, n0, stride, l.long);
    }
    var y1 := if l.b0 > 1 then Interleave(x, n0, stride, l.long) else x;
    var y2 := TimeJoin(c, y1, l.nb1, l.b1, l.divides);
    TimeJoinInverse(c, y1, l.nb1, l.b1, l.divides);
    RecombineInvolution(c, y2, n, 0, l.recombine);
  }

  // ---------------------------------------------------------------- in place, as the source does it

  /** Indices the butterfly loops have passed when lane `i` has done `j` pairs. */
  predicate Passed(k: nat, s: nat, h: nat, i: nat, j: nat)
    requires s > 0
  {
    k < 2 * h * s && (k % s < i || (k % s == i && k / s < 2 * j))
  }

  ghost predicate HaarSoFar(c: real, x: seq<real>, y: seq<real>, h: nat, s: nat, i: nat, j: nat)
    requires s > 0 && 2 * h * s <= |x|
  {
    |y| == |x| &&
    forall k :: 0 <= k < |x| ==>
      y[k] == if Passed(k, s, h, i, j) then HaarAt(c, x, h, s, k) else x[k]
  }

  method Haar1(c: real, X: array<real>, n0: nat, stride: nat)
    requires stride > 0 && 2 * (n0 / 2) * stride <= X.Length
    modifies X
    ensures X[..] == Haar(c, old(X[..]), n0 / 2, stride)
  {
    var h := n0 / 2;
    ghost var x := X[..];
    var i := 0;
    NothingPassed(c, x, h, stride);
    while i < stride
      invariant 0 <= i <= stride && HaarSoFar(c, x, X[..], h, stride, i, 0)
    {
      var j := 0;
      while j < h
        invariant 0 <= j <= h && HaarSoFar(c, x, X[..], h, stride, i, j)
      {
        PairIndices(stride, h, i, j);
        ghost var y := X[..];
        ButterflyAt(c, X, (2 * j) * stride + i, (2 * j + 1) * stride + i);
        HaarPair(c, x, y, X[..], h, stride, i, j);
        j := j + 1;
      }
      LaneDone(c, x, X[..], h, stride, i);
      i := i + 1;
    }
    AllLanesDone(c, x, X[..], h, stride);
  }

  lemma NothingPassed(c: real, x: seq<real>, h: nat, s: nat)
    requires s > 0 && 2 * h * s <= |x|
    ensures HaarSoFar(c, x, x, h, s, 0, 0)
  {
    forall k | 0 <= k < |x| ensures !Passed(k, s, h, 0, 0) {
      DivBelow(k, s, 0);
    }
  }

  ghost predicate ButterflyOf(c: real, y: seq<real>, z: seq<real>, a: nat, b: nat) {
    && |z| == |y| && a < b < |y|
    && z[a] == c * y[a] + c * y[b] && z[b] == c * y[a] - c * y[b]
    && forall k :: 0 <= k < |y| && k != a && k != b ==> z[k] == y[k]
  }

  method ButterflyAt(c: real, X: array<real>, a: nat, b: nat)
    requires a < b < X.Length
    modifies X
    ensures ButterflyOf(c, old(X[..]), X[..], a, b)
  {
    var tmp1, tmp2 := c * X[a], c * X[b];
    X[a] := tmp1 + tmp2;
    X[b] := tmp1 - tmp2;
  }

  lemma PairIndices(s: nat, h: nat, i: nat, j: nat)
    requires i < s && j < h
    ensures var a, b := (2 * j) * s + i, (2 * j + 1) * s + i;
            && 0 <= a < b == a + s < 2 * h * s
            && a / s == 2 * j && a % s == i && b / s == 2 * j + 1 && b % s == i
            && Partner(s, a) == b && Partner(s, b) == a && !OddBlock(s, a) && OddBlock(s, b)
  {
    GridIndex(2 * j, i, 2 * h, s);
    GridIndex(2 * j + 1, i, 2 * h, s);
  }

  lemma HaarPair(c: real, x: seq<real>, y: seq<real>, z: seq<real>, h: nat, s: nat, i: nat, j: nat)
    requires i < s && j < h && 2 * h * s <= |x| && HaarSoFar(c, x, y, h, s, i, j)
    requires ButterflyOf(c, y, z, (2 * j) * s + i, (2 * j + 1) * s + i)
    ensures HaarSoFar(c, x, z, h, s, i, j + 1)
  {
    PairIndices(s, h, i, j);
    var a, b := (2 * j) * s + i, (2 * j + 1) * s + i;
    assert y[a] == x[a] && y[b] == x[b];
    forall k | 0 <= k < |x| && k != a && k != b
      ensures z[k] == if Passed(k, s, h, i, j + 1) then HaarAt(c, x, h, s, k) else x[k]
    {
      PassedOthers(k, s, h, i, j, a, b);
    }
  }

  lemma PassedOthers(k: nat, s: nat, h: nat, i: nat, j: nat, a: nat, b: nat)
    requires s > 0 && a == (2 * j) * s + i && b == (2 * j + 1) * s + i && k != a && k != b
    ensures Passed(k, s, h, i, j + 1) == Passed(k, s, h, i, j)
  {
    assert k == (k / s) * s + k % s;
  }

  lemma LaneDone(c: real, x: seq<real>, y: seq<real>, h: nat, s: nat, i: nat)
    requires s > 0 && 2 * h * s <= |x| && HaarSoFar(c, x, y, h, s, i, h)
    ensures HaarSoFar(c, x, y, h, s, i + 1, 0)
  {
    forall k | 0 <= k < |x| ensures Passed(k, s, h, i + 1, 0) == Passed(k, s, h, i, h) {
      PassedLane(k, s, h, i);
    }
  }

  lemma PassedLane(k: nat, s: nat, h: nat, i: nat)
    requires s > 0
    ensures Passed(k, s, h, i + 1, 0) == Passed(k, s, h, i, h)
  {
    DivBelow(k, s, 2 * h);
    DivBelow(k, s, 0);
  }

  lemma AllLanesDone(c: real, x: seq<real>, y: seq<real>, h: nat, s: nat)
    requires s > 0 && 2 * h * s <= |x| && HaarSoFar(c, x, y, h, s, s, 0)
    ensures y == Haar(c, x, h, s)
  {
    forall k | 0 <= k < |x| ensures y[k] == HaarAt(c, x, h, s, k) {
      assert Passed(k, s, h, s, 0) == (k < 2 * h * s);
    }
  }

  /** Positions written once lanes below `i`, and `j` samples of lane `i`, have been moved. */
  predicate BlockFilled(k: nat, n0: nat, stride: nat, hadamard: bool, i: nat, j: nat)
    requires GoodStride(stride, hadamard)
  {
    n0 > 0 && k / n0 < stride &&
    var lane := OrderyInverse(stride, hadamard, k / n0);
    lane < i || (lane == i && k % n0 < j)
  }

  ghost predicate BlocksSoFar(x: seq<real>, tmp: seq<real>, n0: nat, stride: nat, hadamard: bool, i: nat, j: nat)
    requires GoodStride(stride, hadamard) && n0 * stride <= |x|
  {
    |tmp| == n0 * stride &&
    forall k :: 0 <= k < |tmp| && BlockFilled(k, n0, stride, hadamard, i, j) ==>
      tmp[k] == DeinterleaveAt(x, n0, stride, hadamard, k)
  }

  method DeinterleaveHadamard(X: array<real>, n0: nat, stride: nat, hadamard: bool)
    requires GoodStride(stride, hadamard) && n0 * stride <= X.Length
    modifies X
    ensures X[..] == Deinterleave(old(X[..]), n0, stride, hadamard)
  {
    ghost var x := X[..];
    var n := n0 * stride;
    var tmp := new real[n];
    var i := 0;
    while i < stride
      invariant 0 <= i <= stride && X[..] == x && BlocksSoFar(x, tmp[..], n0, stride, hadamard, i, 0)
    {
      var j := 0;
      while j < n0
        invariant 0 <= j <= n0 && X[..] == x && BlocksSoFar(x, tmp[..], n0, stride, hadamard, i, j)
      {
        GridIndex(Ordery(stride, hadamard, i), j, stride, n0);
        GridIndex(j, i, n0, stride);
        BlockSample(x, tmp[..], n0, stride, hadamard, i, j);
        tmp[Ordery(stride, hadamard, i) * n0 + j] := X[j * stride + i];
        j := j + 1;
      }
      BlockDone(x, tmp[..], n0, stride, hadamard, i);
      i := i + 1;
    }
    AllBlocksDone(x, tmp[..], n0, stride, hadamard);
    forall k | 0 <= k < n {
      X[k] := tmp[k];
    }
    assert X[..] == tmp[..] + x[n..];
  }

  lemma BlockSample(x: seq<real>, tmp: seq<real>, n0: nat, stride: nat, hadamard: bool, i: nat, j: nat)
    requires GoodStride(stride, hadamard) && n0 * stride <= |x| && i < stride && j < n0
    requires BlocksSoFar(x, tmp, n0, stride, hadamard, i, j)
    ensures var p := Ordery(stride, hadamard, i) * n0 + j;
            && 0 <= p < |tmp| && 0 <= j * stride + i < |x|
            && BlocksSoFar(x, tmp[p := x[j * stride + i]], n0, stride, hadamard, i, j + 1)
  {
    var o := Ordery(stride, hadamard, i);
    var p := o * n0 + j;
    BlockSource(x, n0, stride, hadamard, i, j);
    forall k | 0 <= k < |tmp| && k != p && BlockFilled(k, n0, stride, hadamard, i, j + 1)
      ensures BlockFilled(k, n0, stride, hadamard, i, j)
    {
      FilledBefore(k, n0, stride, hadamard, i, j);
    }
  }

  lemma FilledBefore(k: nat, n0: nat, stride: nat, hadamard: bool, i: nat, j: nat)
    requires GoodStride(stride, hadamard) && i < stride && BlockFilled(k, n0, stride, hadamard, i, j + 1)
    requires k != Ordery(stride, hadamard, i) * n0 + j
    ensures BlockFilled(k, n0, stride, hadamard, i, j)
  {
    DivBelow(k, n0, 0);
    OrderyIsPermutation(stride, hadamard, k / n0);
    OtherCell(k, n0, Ordery(stride, hadamard, i), j);
  }

  lemma OtherCell(k: nat, n0: nat, o: nat, j: nat)
    requires n0 > 0 && k != o * n0 + j
    ensures k / n0 != o || k % n0 != j
  {
    assert k == (k / n0) * n0 + k % n0;
  }

  lemma BlockDone(x: seq<real>, tmp: seq<real>, n0: nat, stride: nat, hadamard: bool, i: nat)
    requires GoodStride(stride, hadamard) && n0 * stride <= |x|
    requires BlocksSoFar(x, tmp, n0, stride, hadamard, i, n0)
    ensures BlocksSoFar(x, tmp, n0, stride, hadamard, i + 1, 0)
  {
    forall k | 0 <= k < |tmp| && BlockFilled(k, n0, stride, hadamard, i + 1, 0)
      ensures BlockFilled(k, n0, stride, hadamard, i, n0)
    {
    }
  }

  lemma AllBlocksDone(x: seq<real>, tmp: seq<real>, n0: nat, stride: nat, hadamard: bool)
    requires GoodStride(stride, hadamard) && n0 * stride <= |x|
    requires BlocksSoFar(x, tmp, n0, stride, hadamard, stride, 0)
    ensures tmp + x[n0 * stride..] == Deinterleave(x, n0, stride, hadamard)
  {
    forall k | 0 <= k < |tmp| ensures tmp[k] == DeinterleaveAt(x, n0, stride, hadamard, k) {
      FilledInTheEnd(k, n0, stride, hadamard);
    }
  }

  lemma FilledInTheEnd(k: nat, n0: nat, stride: nat, hadamard: bool)
    requires GoodStride(stride, hadamard) && k < n0 * stride
    ensures BlockFilled(k, n0, stride, hadamard, stride, 0)
  {
    assert n0 * stride == stride * n0;
    GridCell(k, stride, n0);
  }

  predicate LaneReached(k: nat, stride: nat, i: nat, j: nat)
    requires stride > 0
  {
    k % stride < i || (k % stride == i && k / stride < j)
  }

  ghost predicate LanesSoFar(x: seq<real>, tmp: seq<real>, n0: nat, stride: nat, hadamard: bool, i: nat, j: nat)
    requires GoodStride(stride, hadamard) && n0 * stride <= |x|
  {
    |tmp| == n0 * stride &&
    forall k :: 0 <= k < |tmp| && LaneReached(k, stride, i, j) ==>
      tmp[k] == InterleaveAt(x, n0, stride, hadamard, k)
  }

  method InterleaveHadamard(X: array<real>, n0: nat, stride: nat, hadamard: bool)
    requires GoodStride(stride, hadamard) && n0 * stride <= X.Length
    modifies X
    ensures X[..] == Interleave(old(X[..]), n0, stride, hadamard)
  {
    ghost var x := X[..];
    var n := n0 * stride;
    var tmp := new real[n];
    var i := 0;
    while i < stride
      invariant 0 <= i <= stride && X[..] == x && LanesSoFar(x, tmp[..], n0, stride, hadamard, i, 0)
    {
      var j := 0;
      while j < n0
        invariant 0 <= j <= n0 && X[..] == x && LanesSoFar(x, tmp[..], n0, stride, hadamard, i, j)
      {
        GridIndex(Ordery(stride, hadamard, i), j, stride, n0);
        GridIndex(j, i, n0, stride);
        LaneSample(x, tmp[..], n0, stride, hadamard, i, j);
        tmp[j * stride + i] := X[Ordery(stride, hadamard, i) * n0 + j];
        j := j + 1;
      }
      LaneFilled(x, tmp[..], n0, stride, hadamard, i);
      i := i + 1;
    }
    AllLanesFilled(x, tmp[..], n0, stride, hadamard);
    forall k | 0 <= k < n {
      X[k] := tmp[k];
    }
    assert X[..] == tmp[..] + x[n..];
  }

  lemma AllLanesFilled(x: seq<real>, tmp: seq<real>, n0: nat, stride: nat, hadamard: bool)
    requires GoodStride(stride, hadamard) && n0 * stride <= |x|
    requires LanesSoFar(x, tmp, n0, stride, hadamard, stride, 0)
    ensures tmp + x[n0 * stride..] == Interleave(x, n0, stride, hadamard)
  {
    forall k | 0 <= k < |tmp| ensures tmp[k] == InterleaveAt(x, n0, stride, hadamard, k) {
      GridCell(k, n0, stride);
      assert LaneReached(k, stride, stride, 0);
    }
  }

  lemma LaneSample(x: seq<real>, tmp: seq<real>, n0: nat, stride: nat, hadamard: bool, i: nat, j: nat)
    requires GoodStride(stride, hadamard) && n0 * stride <= |x| && i < stride && j < n0
    requires LanesSoFar(x, tmp, n0, stride, hadamard, i, j)
    ensures var o := Ordery(stride, hadamard, i) * n0 + j;
            && 0 <= j * stride + i < |tmp| && 0 <= o < |x|
            && LanesSoFar(x, tmp[j * stride + i := x[o]], n0, stride, hadamard, i, j + 1)
  {
    GridIndex(Ordery(stride, hadamard, i), j, stride, n0);
    assert stride * n0 == n0 * stride;
    GridIndex(j, i, n0, stride);
    forall k | 0 <= k < |tmp| && k != j * stride + i && LaneReached(k, stride, i, j + 1)
      ensures LaneReached(k, stride, i, j)
    {
      GridCell(k, n0, stride);
    }
  }

  lemma LaneFilled(x: seq<real>, tmp: seq<real>, n0: nat, stride: nat, hadamard: bool, i: nat)
    requires GoodStride(stride, hadamard) && n0 * stride <= |x|
    requires LanesSoFar(x, tmp, n0, stride, hadamard, i, n0)
    ensures LanesSoFar(x, tmp, n0, stride, hadamard, i + 1, 0)
  {
    forall k | 0 <= k < |tmp| && LaneReached(k, stride, i + 1, 0) ensures LaneReached(k, stride, i, n0) {
      GridCell(k, n0, stride);
    }
  }

  /** `haar1(X, N>>k, 1<<k)` for k = 0, 1, ..., r - 1. */
  method RecombineInPlace(c: real, X: array<real>, n: nat, r: nat)
    requires n <= X.Length
    modifies X
    ensures X[..] == Recombine(c, old(X[..]), n, 0, r)
  {
    var k := 0;
    while k < r
      invariant 0 <= k <= r
      invariant Recombine(c, X[..], n, k, r) == Recombine(c, old(X[..]), n, 0, r)
    {
      LevelFits(n, k);
      Haar1(c, X, ShiftRight(n, k), Pow2(k));
      k := k + 1;
    }
  }

  /** The analysis half of `quant_band`. */
  method AnalyseBand(c: real, X: array<real>, n: nat, b: nat, tf: int) returns (l: Layout)
    requires GoodBand(n, b, tf) && n <= X.Length
    modifies X
    ensures l == LayoutOf(n, b, tf)
    ensures X[..] == Analyse(c, old(X[..]), n, b, tf)
  {
    LayoutFits(n, b, tf);
    ghost var spec := LayoutOf(n, b, tf);
    var recombine := if tf > 0 then tf else 0;
    RecombineInPlace(c, X, n, recombine);
    var b1, nb1 := ShiftRight(b, recombine), ShiftLeft(n / b, recombine);
    var b0, nb0, divides := DivideInPlace(c, X, nb1, b1, tf);
    if b0 > 1 {
      DeinterleaveHadamard(X, ShiftRight(nb0, recombine), ShiftLeft(b0, recombine), b == 1);
    }
    l := Layout(n, b == 1, recombine, b1, nb1, divides, b0, nb0);
  }

  /** The loop that trades block length for block count while the length is even. */
  method DivideInPlace(c: real, X: array<real>, nb1: nat, b1: nat, tf: int)
    returns (b0: nat, nb0: nat, divides: nat)
    requires nb1 * b1 <= X.Length && (b1 > 0 || tf >= 0)
    modifies X
    ensures divides == TimeSteps(nb1, tf) && b0 == ShiftLeft(b1, divides) && nb0 == ShiftRight(nb1, divides)
    ensures b1 > 0 || divides == 0
    ensures X[..] == TimeDivide(c, old(X[..]), nb1, b1, divides)
  {
    b0, nb0, divides := b1, nb1, 0;
    ghost var total := TimeSteps(nb1, tf);
    var change := tf;
    assert Pow2(0) == 1;
    while nb0 % 2 == 0 && change < 0
      invariant b1 > 0 || change >= 0
      invariant divides + TimeSteps(nb0, change) == total
      invariant nb0 * b0 <= X.Length && (b1 > 0 ==> b0 > 0)
      invariant b0 == ShiftLeft(b1, divides) && nb0 == ShiftRight(nb1, divides)
      invariant TimeDivide(c, X[..], nb0, b0, TimeSteps(nb0, change)) == TimeDivide(c, old(X[..]), nb1, b1, total)
      decreases -change
    {
      HalvesFit(nb0, b0, X.Length);
      Haar1(c, X, nb0, b0);
      ShiftOnce(b1, nb1, divides);
      b0, nb0, divides, change := 2 * b0, nb0 / 2, divides + 1, change + 1;
    }
  }

  lemma ShiftOnce(b: nat, nb: nat, t: nat)
    ensures ShiftLeft(b, t + 1) == 2 * ShiftLeft(b, t) && ShiftRight(nb, t + 1) == ShiftRight(nb, t) / 2
  {
    assert b * Pow2(t + 1) == 2 * (b * Pow2(t));
    var p := Pow2(t);
    var q, r := nb / p, nb % p;
    assert nb == q * p + r;
    assert nb == (q / 2) * (2 * p) + ((q % 2) * p + r) by {
      assert q == 2 * (q / 2) + q % 2;
    }
    MulMono(q % 2, 1, p);
    DivUnique(nb, 2 * p, q / 2, (q % 2) * p + r);
  }

  /** The resynthesis half of `quant_band`, from the layout the analysis half left behind. */
  method ResynthesiseBand(c: real, X: array<real>, n: nat, b: nat, tf: int, l: Layout)
    requires GoodBand(n, b, tf) && n <= X.Length && l == LayoutOf(n, b, tf)
    modifies X
    ensures X[..] == Resynthesise(c, old(X[..]), n, b, tf)
  {
    LayoutFits(n, b, tf);
    if l.b0 > 1 {
      InterleaveHadamard(X, ShiftRight(l.nb0, l.recombine), ShiftLeft(l.b0, l.recombine), l.long);
    }
    ExactHalves(l.nb1, tf);
    JoinInPlace(c, X, l.nb1, l.b1, l.nb0, l.b0, l.divides);
    RecombineInPlace(c, X, n, l.recombine);
  }

  /** Undo the time divisions, last one first. */
  method JoinInPlace(c: real, X: array<real>, ghost nb1: nat, ghost b1: nat, nb0: nat, b0: nat, divides: nat)
    requires nb1 * b1 <= X.Length && (b1 > 0 || divides == 0)
    requires nb1 == ShiftLeft(nb0, divides) && b0 == ShiftLeft(b1, divides)
    modifies X
    ensures X[..] == TimeJoin(c, old(X[..]), nb1, b1, divides)
  {
    var nb, b, k := nb0, b0, 0;
    while k < divides
      invariant 0 <= k <= divides
      invariant nb1 == ShiftLeft(nb, divides - k) && b == ShiftLeft(b1, divides - k)
      invariant TimeJoin(c, X[..], nb1, b1, divides - k) == TimeJoin(c, old(X[..]), nb1, b1, divides)
    {
      ghost var m := divides - k - 1;
      JoinSizes(nb1, b1, nb, b, m, X.Length);
      b, nb := b / 2, 2 * nb;
      JoinLast(c, X[..], nb1, b1, m, nb / 2, b);
      Haar1(c, X, nb, b);
      k := k + 1;
    }
  }

  lemma ExactHalves(nb: nat, tf: int)
    ensures var t := TimeSteps(nb, tf); nb == ShiftLeft(ShiftRight(nb, t), t)
  {
    DividesFit(nb, 1, tf);
  }

  lemma JoinSizes(nb1: nat, b1: nat, nb: nat, b: nat, m: nat, n: nat)
    requires b1 > 0 && nb1 * b1 <= n && nb1 == ShiftLeft(nb, m + 1) && b == ShiftLeft(b1, m + 1)
    ensures nb1 == ShiftLeft(2 * nb, m) && b / 2 == ShiftLeft(b1, m) > 0
    ensures ShiftRight(nb1, m) == 2 * nb && 2 * nb * (b / 2) <= n
  {
    var p := Pow2(m);
    assert nb1 == (2 * nb) * p;
    assert b1 * Pow2(m + 1) == 2 * (b1 * p);
    MulMono(1, b1, p);
    DivUnique(nb1, p, 2 * nb, 0);
    assert (2 * nb) * (b1 * p) == ((2 * nb) * p) * b1;
  }

  lemma DoubleThenShift(b: nat, m: nat)
    ensures ShiftLeft(2 * b, m) == 2 * ShiftLeft(b, m)
  {
    assert (2 * b) * Pow2(m) == 2 * (b * Pow2(m));
  }

  /** Joining m + 1 levels starts by undoing the last one. */
  lemma {:induction false} JoinLast(c: real, y: seq<real>, nb: nat, b: nat, m: nat, h: nat, s: nat)
    requires nb * b <= |y| && b > 0
    requires h == ShiftRight(nb, m) / 2 && s == ShiftLeft(b, m) && s > 0 && 2 * h * s <= |y|
    ensures TimeJoin(c, y, nb, b, m + 1) == TimeJoin(c, Haar(c, y, h, s), nb, b, m)
    decreases m
  {
    if m > 0 {
      HalvesFit(nb, b, |y|);
      HalveThenShift(nb, m - 1);
      ShiftOnce(b, nb, m - 1);
      DoubleThenShift(b, m - 1);
      JoinLast(c, y, nb / 2, 2 * b, m - 1, h, s);
    } else {
      assert Pow2(0) == 1;
    }
  }
}
