/** What the analysis half of `quant_band` (native/opus/celt/bands.c) does to a signal: a band whose blocks all say the
    same is gathered into fewer coefficients. Its layout follows from the arguments. */
module SignalShape {
  import opened Indexing
  import opened TimeFrequency

  // ---------------------------------------------------------------- the layout

  lemma HalfMultiple(nb: nat, p: nat)
    requires p > 0 && nb % 2 == 0
    ensures nb % (2 * p) == 0 <==> (nb / 2) % p == 0
  {
    var q, r := (nb / 2) / p, (nb / 2) % p;
    assert nb / 2 == q * p + r;
    assert nb == q * (2 * p) + 2 * r;
    DivUnique(nb, 2 * p, q, 2 * r);
  }

  /** The time divisions are as many as asked for and as the block length allows. */
  lemma {:induction false} StepsAreMaximal(nb: nat, tf: int)
    ensures var t := TimeSteps(nb, tf);
            nb % Pow2(t) == 0 && (t == Max(-tf, 0) || nb % Pow2(t + 1) != 0)
    decreases Max(-tf, 0)
  {
    if nb % 2 == 0 && tf < 0 {
      var t := TimeSteps(nb / 2, tf + 1);
      StepsAreMaximal(nb / 2, tf + 1);
      HalfMultiple(nb, Pow2(t));
      HalfMultiple(nb, Pow2(t + 1));
    } else {
      assert Pow2(0) == 1 && Pow2(1) == 2;
    }
  }

  /** The layout, from the arguments: a positive change recombines that many times, a negative one divides as often as
      asked for and as the block length allows. */
  lemma LayoutIsRight(n: nat, b: nat, tf: int)
    requires b > 0
    ensures var l := LayoutOf(n, b, tf);
            && l.recombine == Max(tf, 0) && l.long == (b == 1)
            && l.b1 == b / Pow2(Max(tf, 0)) && l.nb1 == n / b * Pow2(Max(tf, 0))
            && l.divides <= Max(-tf, 0) && l.nb1 % Pow2(l.divides) == 0
            && (l.divides == Max(-tf, 0) || l.nb1 % Pow2(l.divides + 1) != 0)
            && l.b0 == l.b1 * Pow2(l.divides) && l.nb0 == l.nb1 / Pow2(l.divides)
  {
    StepsAreMaximal(LayoutOf(n, b, tf).nb1, tf);
  }

  // ---------------------------------------------------------------- equal rows

  /** The first `nb` rows of `x` all are the row `w`. */
  ghost predicate SameRows(x: seq<real>, w: seq<real>, nb: nat) {
    |w| > 0 && nb * |w| <= |x| && forall k :: 0 <= k < nb * |w| ==> x[k] == w[k % |w|]
  }

  function Power(a: real, t: nat): real { if t == 0 then 1.0 else a * Power(a, t - 1) }

  /** A row followed by a silent one. */
  function Gathered(c: real, w: seq<real>): (g: seq<real>)
    ensures |g| == 2 * |w|
    ensures forall i :: 0 <= i < 2 * |w| ==> g[i] == if i < |w| then 2.0 * c * w[i] else 0.0
  {
    seq(2 * |w|, i requires 0 <= i < 2 * |w| => if i < |w| then 2.0 * c * w[i] else 0.0)
  }

  /** Index `k` in rows of length `b`, and in rows twice as long. */
  lemma RowOfTwo(k: nat, b: nat)
    requires b > 0
    ensures 0 <= k / b && 0 <= k % b < b && k / (2 * b) == (k / b) / 2 && k % (2 * b) == ((k / b) % 2) * b + k % b
  {
    var q, i := k / b, k % b;
    DivBelow(k, b, 0);
    assert k == q * b + i;
    MulMono(q % 2, 1, b);
    assert q == 2 * (q / 2) + q % 2;
    assert k == (q / 2) * (2 * b) + ((q % 2) * b + i);
    DivUnique(k, 2 * b, q / 2, (q % 2) * b + i);
  }

  lemma PartnerColumn(s: nat, k: nat)
    requires s > 0
    ensures Partner(s, k) >= 0 && Partner(s, k) % s == k % s
  {
    PartnerBlock(s, k);
    DivShift(k, s, 1);
    DivShift(k, s, -1);
  }

  /** A butterfly of two equal rows. */
  lemma EqualPair(c: real, x: seq<real>, w: seq<real>, h: nat, k: nat)
    requires SameRows(x, w, 2 * h) && k < 2 * h * |w|
    ensures HaarAt(c, x, h, |w|, k) == Gathered(c, w)[k % (2 * |w|)]
  {
    var b := |w|;
    PartnerFacts(b, h, k);
    PartnerColumn(b, k);
    var i := k % b;
    assert HaarAt(c, x, h, b, k) == Mix(c, OddBlock(b, k), w[i], w[i]);
    RowOfTwo(k, b);
    MixOfEqual(c, OddBlock(b, k), w[i]);
  }

  lemma MixOfEqual(c: real, odd: bool, v: real)
    ensures Mix(c, odd, v, v) == if odd then 0.0 else 2.0 * c * v
  {
  }

  lemma HaarOfRows(c: real, x: seq<real>, w: seq<real>, h: nat)
    requires SameRows(x, w, 2 * h)
    ensures SameRows(Haar(c, x, h, |w|), Gathered(c, w), h)
  {
    assert h * (2 * |w|) == 2 * h * |w|;
    forall k: nat | k < 2 * h * |w| ensures HaarAt(c, x, h, |w|, k) == Gathered(c, w)[k % (2 * |w|)] {
      EqualPair(c, x, w, h, k);
    }
  }

  /** What `t` divisions leave in column `i` of row `q`: every 2^t-th row, scaled, and silence. */
  function Kept(c: real, w: seq<real>, t: nat, q: nat, i: nat): real
    requires i < |w|
  {
    if q % Pow2(t) == 0 then Power(2.0 * c, t) * w[i] else 0.0
  }

  function KeptAt(c: real, w: seq<real>, t: nat, k: nat): real
    requires |w| > 0
  {
    DivBelow(k, |w|, 0);
    Kept(c, w, t, k / |w|, k % |w|)
  }

  lemma KeptOnce(c: real, w: seq<real>, t: nat, q: nat, i: nat)
    requires i < |w|
    ensures (q % 2) * |w| + i < 2 * |w|
    ensures Kept(c, Gathered(c, w), t, q / 2, (q % 2) * |w| + i) == Kept(c, w, t + 1, q, i)
  {
    if q % 2 == 0 {
      HalfMultiple(q, Pow2(t));
      ScaledTwice(Power(2.0 * c, t), 2.0 * c, w[i]);
    } else {
      OddIsNoMultiple(q, Pow2(t));
      assert Gathered(c, w)[|w| + i] == 0.0;
    }
  }

  lemma KeptOnceAt(c: real, w: seq<real>, t: nat, k: nat)
    requires |w| > 0
    ensures KeptAt(c, Gathered(c, w), t, k) == KeptAt(c, w, t + 1, k)
  {
    RowOfTwo(k, |w|);
    KeptOnce(c, w, t, k / |w|, k % |w|);
  }

  lemma ScaledTwice(p: real, a: real, v: real)
    ensures p * (a * v) == (a * p) * v
  {
  }

  lemma OddIsNoMultiple(q: nat, p: nat)
    requires p > 0 && q % 2 == 1
    ensures q % (2 * p) != 0
  {
    var m := q / (2 * p);
    assert q == m * (2 * p) + q % (2 * p);
    assert m * (2 * p) == 2 * (m * p);
  }

  /** `y` is `x` with its first `size` samples, equal rows `w`, gathered `t` times. */
  ghost predicate Gathers(c: real, x: seq<real>, y: seq<real>, w: seq<real>, t: nat, size: nat)
    requires |w| > 0
  {
    && size <= |x| == |y|
    && (forall k: nat | k < size :: y[k] == KeptAt(c, w, t, k))
    && (forall k | size <= k < |x| :: y[k] == x[k])
  }

  /** Time division gathers equal rows, and leaves everything behind them alone. */
  lemma {:induction false} DivisionGathersRows(c: real, x: seq<real>, w: seq<real>, nb: nat, t: nat)
    requires SameRows(x, w, nb) && nb % Pow2(t) == 0
    ensures Gathers(c, x, TimeDivide(c, x, nb, |w|, t), w, t, nb * |w|)
    decreases t
  {
    if t == 0 {
      NothingGathered(c, x, w, nb);
    } else {
      var h, g := nb / 2, Gathered(c, w);
      EvenMultiple(nb, Pow2(t - 1));
      HalvesFit(nb, |w|, |x|);
      HaarOfRows(c, x, w, h);
      var x1 := Haar(c, x, h, |w|);
      DivisionGathersRows(c, x1, g, h, t - 1);
      SameSize(h, |w|, nb);
      GathersMore(c, x, x1, TimeDivide(c, x1, h, 2 * |w|, t - 1), w, t - 1, nb * |w|);
    }
  }

  lemma SameSize(h: nat, b: nat, nb: nat)
    requires nb == 2 * h
    ensures h * (2 * b) == nb * b
  {
  }

  lemma NothingGathered(c: real, x: seq<real>, w: seq<real>, nb: nat)
    requires SameRows(x, w, nb)
    ensures Gathers(c, x, x, w, 0, nb * |w|)
  {
    assert Pow2(0) == 1;
    forall k: nat | k < nb * |w| ensures x[k] == KeptAt(c, w, 0, k) {
      assert Power(2.0 * c, 0) == 1.0;
    }
  }

  lemma GathersMore(c: real, x: seq<real>, x1: seq<real>, y: seq<real>, w: seq<real>, t: nat, size: nat)
    requires |w| > 0 && |x1| == |x| && (forall k | size <= k < |x| :: x1[k] == x[k])
    requires Gathers(c, x1, y, Gathered(c, w), t, size)
    ensures Gathers(c, x, y, w, t + 1, size)
  {
    forall k: nat | k < size ensures y[k] == KeptAt(c, w, t + 1, k) {
      KeptOnceAt(c, w, t, k);
    }
  }

  lemma EvenMultiple(nb: nat, p: nat)
    requires p > 0 && nb % (2 * p) == 0
    ensures nb % 2 == 0 && (nb / 2) % p == 0
  {
    if nb % 2 == 1 { OddIsNoMultiple(nb, p); }
    HalfMultiple(nb - nb % 2, p);
  }

  // ---------------------------------------------------------------- recombining

  /** Recombining is time division of blocks of one sample: from level `k` on, of `nb` rows of length `b`. */
  lemma {:induction false} RecombiningDivides(c: real, x: seq<real>, n: nat, k: nat, r: nat, nb: nat, b: nat)
    requires n <= |x| && k <= r && b == Pow2(k) && nb == n / b && nb * b <= |x|
    ensures Recombine(c, x, n, k, r) == TimeDivide(c, x, nb, b, r - k)
    decreases r - k
  {
    if k < r {
      LevelFits(n, k);
      HalvesFit(nb, b, |x|);
      ShiftOnce(1, n, k);
      RecombiningDivides(c, Level(c, x, n, k), n, k + 1, r, nb / 2, 2 * b);
    }
  }

  ghost predicate Constant(x: seq<real>, n: nat, v: real) { n <= |x| && forall k :: 0 <= k < n ==> x[k] == v }

  /** A constant band becomes (2c)^r * v at every 2^r-th index, and silence in between. */
  lemma RecombiningGathers(c: real, x: seq<real>, n: nat, r: nat, v: real)
    requires Constant(x, n, v) && n % Pow2(r) == 0
    ensures forall k: nat | k < n ::
              Recombine(c, x, n, 0, r)[k] == if k % Pow2(r) == 0 then Power(2.0 * c, r) * v else 0.0
  {
    assert Pow2(0) == 1;
    RecombiningDivides(c, x, n, 0, r, n, 1);
    assert SameRows(x, [v], n);
    DivisionGathersRows(c, x, [v], n, r);
    forall k: nat | k < n ensures KeptAt(c, [v], r, k) == if k % Pow2(r) == 0 then Power(2.0 * c, r) * v else 0.0 {
      assert k / 1 == k;
    }
  }

  // ---------------------------------------------------------------- the whole analysis

  lemma MultiplesAdd(j: nat, m: nat, i: nat, p: nat)
    requires p > 0 && m % p == 0
    ensures (j * m + i) % p == i % p
  {
    var q := m / p;
    assert m == q * p;
    assert j * m + i == (j * q) * p + i by { assert j * (q * p) == (j * q) * p; }
    assert i == (i / p) * p + i % p;
    assert j * m + i == (j * q + i / p) * p + i % p;
    DivUnique(j * m + i, p, j * q + i / p, i % p);
  }

  lemma MultipleOfMultiple(n: nat, b: nat, p: nat)
    requires b > 0 && p > 0 && n % b == 0 && b % p == 0
    ensures n % p == 0 && n / b * b == n && b / p * p == b
  {
    MultiplesAdd(n / b, b, 0, p);
  }

  /** The sizes a positive change leaves when everything divides evenly. */
  lemma RecombinedLayout(n: nat, b: nat, tf: nat)
    requires tf > 0 && b > 0 && n % b == 0 && b % Pow2(tf) == 0
    ensures var l := LayoutOf(n, b, tf);
            && l.recombine == tf && l.divides == 0 && l.b0 == b / Pow2(tf) && l.b0 * Pow2(tf) == b
            && l.nb0 / Pow2(tf) == n / b && (l.long ==> l.b0 == 0) && n % Pow2(tf) == 0
  {
    var p := Pow2(tf);
    MultipleOfMultiple(n, b, p);
    LayoutIsRight(n, b, tf);
    assert Pow2(0) == 1;
    DivUnique(n / b * p, p, n / b, 0);
    if b == 1 { assert p == 2 * Pow2(tf - 1); }
  }

  /** The analysis holds the lanes of the recombined band as blocks. */
  lemma AnalysisRecombines(c: real, x: seq<real>, n: nat, b: nat, tf: nat, n0: nat)
    requires n <= |x| && tf > 0 && 0 < b && n == n0 * b && b % Pow2(tf) == 0 && Pow2(tf) < b
    ensures HoldsBlocks(Recombine(c, x, n, 0, tf), Analyse(c, x, n, b, tf), n0, b, false)
  {
    DivUnique(n, b, n0, 0);
    RecombinedLayout(n, b, tf);
    LayoutFits(n, b, tf);
    assert LayoutOf(n, b, tf).b0 > 1;
    DeinterleaveHoldsBlocks(Recombine(c, x, n, 0, tf), n0, b, false);
  }

  /** A band of more than 2^tf blocks of `n0` samples, all of them `v`: each group of 2^tf blocks is gathered into its
      first one, and the blocks come out one after the other. */
  lemma AnalysisGathersBlocks(c: real, x: seq<real>, n: nat, b: nat, tf: nat, v: real, n0: nat, i: nat, j: nat, p: nat)
    requires Constant(x, n, v) && tf > 0 && 0 < b && n == n0 * b && b % Pow2(tf) == 0 && Pow2(tf) < b
    requires i < b && j < n0 && p == i * n0 + j
    ensures p < n && Analyse(c, x, n, b, tf)[p] == if i % Pow2(tf) == 0 then Power(2.0 * c, tf) * v else 0.0
  {
    var x1, g := Recombine(c, x, n, 0, tf), Power(2.0 * c, tf) * v;
    AnalysisRecombines(c, x, n, b, tf, n0);
    MultiplesAdd(n0, b, 0, Pow2(tf));
    RecombiningGathers(c, x, n, tf, v);
    PulsedBlock(x1, Analyse(c, x, n, b, tf), n0, b, Pow2(tf), g, i, j, p);
    BlockInside(i, j, n0, b);
  }

  /** With no more than 2^tf blocks nothing is reordered: a constant band keeps every 2^tf-th coefficient. */
  lemma AnalysisGathersAll(c: real, x: seq<real>, n: nat, b: nat, tf: nat, v: real, k: nat)
    requires Constant(x, n, v) && tf > 0 && 0 < b <= Pow2(tf) && n % Pow2(tf) == 0 && k < n
    ensures Analyse(c, x, n, b, tf)[k] == if k % Pow2(tf) == 0 then Power(2.0 * c, tf) * v else 0.0
  {
    LayoutIsRight(n, b, tf);
    assert Pow2(0) == 1;
    DivBelow(b, Pow2(tf), 2);
    RecombiningGathers(c, x, n, tf, v);
  }

  lemma BlockInside(i: nat, j: nat, n0: nat, b: nat)
    requires i < b && j < n0
    ensures i * n0 + j < n0 * b && 0 <= j * b + i < n0 * b
  {
    GridIndex(i, j, b, n0);
    GridIndex(j, i, n0, b);
    assert b * n0 == n0 * b;
  }

  /** Lanes of a band that is `g` at every m-th index and silent elsewhere. */
  lemma PulsedBlock(x: seq<real>, y: seq<real>, n0: nat, b: nat, m: nat, g: real, i: nat, j: nat, p: nat)
    requires 0 < b && 0 < m && b % m == 0 && n0 * b <= |x| && HoldsBlocks(x, y, n0, b, false)
    requires forall k: nat | k < n0 * b :: x[k] == if k % m == 0 then g else 0.0
    requires i < b && j < n0 && p == i * n0 + j
    ensures p < |y| && y[p] == if i % m == 0 then g else 0.0
  {
    assert InBlock(x, y, n0, b, false, i, j);
    BlockInside(i, j, n0, b);
    MultiplesAdd(j, b, i, m);
  }

  /** The sizes a negative change leaves when the blocks fill the band. */
  lemma DividedLayout(n: nat, b: nat, tf: int)
    requires tf <= 0 && b > 0 && n % b == 0
    ensures var l := LayoutOf(n, b, tf);
            && l.recombine == 0 && l.b1 == b && l.nb1 == n / b && l.nb1 * b == n
            && l.nb1 % Pow2(l.divides) == 0 && l.b0 == b * Pow2(l.divides) && l.nb0 == l.nb1 / Pow2(l.divides)
  {
    LayoutIsRight(n, b, tf);
    assert Pow2(0) == 1;
  }

  /** The row and column of sample `j` of lane `i`. */
  lemma LaneInRows(j: nat, i: nat, b: nat, p: nat)
    requires b > 0 && p > 0 && i < b * p
    ensures var k := j * (b * p) + i;
            0 <= k / b && (k / b) % p == i / b && k % b == i % b && 0 <= i / b < p && (i / b == 0 <==> i < b)
  {
    var k, q := j * (b * p) + i, i / b;
    DivBelow(i, b, p);
    DivBelow(i, b, 0);
    DivBelow(i, b, 1);
    assert i == q * b + i % b;
    assert k == (j * p + q) * b + i % b by { assert j * (b * p) == (j * p) * b; }
    DivUnique(k, b, j * p + q, i % b);
    DivUnique(j * p + q, p, j, q);
  }

  lemma AnalysisDivides(c: real, x: seq<real>, n: nat, b: nat, tf: int, t: nat, n0: nat, stride: nat)
    requires GoodBand(n, b, tf) && n <= |x| && tf <= 0 && n % b == 0 && n / b * b == n
    requires t == LayoutOf(n, b, tf).divides && n0 == n / b / Pow2(t) && stride == b * Pow2(t) && stride > 1
    ensures GoodStride(stride, b == 1) && n0 * stride <= n && n / b % Pow2(t) == 0
    ensures HoldsBlocks(TimeDivide(c, x, n / b, b, t), Analyse(c, x, n, b, tf), n0, stride, b == 1)
  {
    DividedLayout(n, b, tf);
    LayoutFits(n, b, tf);
    assert Pow2(0) == 1;
    DeinterleaveHoldsBlocks(TimeDivide(c, x, n / b, b, t), n0, stride, b == 1);
  }

  /** A band whose rows all are `w`, one sample per block, divided `t` times: all of it is gathered into the first `b`
      of the new blocks, each a multiple of its sample of `w`, and the others are silent. The blocks come out in the
      order of the table, which has a row for them by `AnalysisDivides`. */
  lemma AnalysisGathersTime(c: real, x: seq<real>, n: nat, b: nat, tf: int, w: seq<real>, t: nat, n0: nat, stride: nat,
                            i: nat, j: nat, p: nat)
    requires GoodBand(n, b, tf) && tf <= 0 && |w| == b && n % b == 0 && n / b * b == n <= |x| && SameRows(x, w, n / b)
    requires t == LayoutOf(n, b, tf).divides && n0 == n / b / Pow2(t) && stride == b * Pow2(t) && stride > 1
    requires GoodStride(stride, b == 1) && i < stride && j < n0 && p == Ordery(stride, b == 1, i) * n0 + j
    ensures p < |x| && Analyse(c, x, n, b, tf)[p] == if i < b then Power(2.0 * c, t) * w[i] else 0.0
  {
    AnalysisDivides(c, x, n, b, tf, t, n0, stride);
    DivisionGathersRows(c, x, w, n / b, t);
    var x1 := TimeDivide(c, x, n / b, b, t);
    assert InBlock(x1, Analyse(c, x, n, b, tf), n0, stride, b == 1, i, j);
    LaneInside(i, j, n0, stride);
    LaneKept(c, w, t, b, stride, i, j);
  }

  lemma LaneInside(i: nat, j: nat, n0: nat, stride: nat)
    requires i < stride && j < n0
    ensures 0 <= j * stride + i < n0 * stride
  {
    GridIndex(j, i, n0, stride);
  }

  lemma LaneKept(c: real, w: seq<real>, t: nat, b: nat, stride: nat, i: nat, j: nat)
    requires |w| == b > 0 && stride == b * Pow2(t) && i < stride
    ensures j * stride + i >= 0
    ensures KeptAt(c, w, t, j * stride + i) == if i < b then Power(2.0 * c, t) * w[i] else 0.0
  {
    MulMono(0, j, stride);
    LaneInRows(j, i, b, Pow2(t));
    if i < b { DivUnique(i, b, 0, i); }
    DivBelow(i / b, Pow2(t), 0);
  }
}
