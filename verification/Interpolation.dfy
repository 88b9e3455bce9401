/** What the interpolation kernels of the resamplers and of the timescale filter compute: engine/resample/linear.rs,
    hermite.rs and sinc.rs, and engine/filters/timescale.rs. */
module Interpolation {
  import opened Indexing
  import opened Resampling
  import Timescale

  // ---------------------------------------------------------------- linear

  lemma TruncDivNear(a: int, d: int)
    requires d > 0
    ensures a >= 0 ==> TruncDiv(a, d) * d <= a < (TruncDiv(a, d) + 1) * d && TruncDiv(a, d) >= 0
    ensures a <= 0 ==> (TruncDiv(a, d) - 1) * d < a <= TruncDiv(a, d) * d && TruncDiv(a, d) <= 0
  {
    if a >= 0 { FloorNear(a, d); } else { FloorNear(-a, d); }
  }

  lemma FloorNear(a: int, d: int)
    requires d > 0 && a >= 0
    ensures a / d * d <= a < (a / d + 1) * d && a / d >= 0
  {
    DivBelow(a, d, 0);
    assert a == a / d * d + a % d;
    assert (a / d + 1) * d == a / d * d + d;
  }

  /** Truncation keeps whole bounds. */
  lemma TruncDivBetween(a: int, d: int, lo: int, hi: int)
    requires d > 0 && lo * d <= a <= hi * d
    ensures lo <= TruncDiv(a, d) <= hi
  {
    var q := TruncDiv(a, d);
    TruncDivNear(a, d);
    if q < lo {
      MulMono(q + 1, lo, d);
      if a < 0 { MulMono(q, lo - 1, d); MulMono(lo, 0, d); }
    }
    if q > hi {
      MulMono(hi, q - 1, d);
      if a > 0 { MulMono(hi + 1, q, d); }
    }
  }

  /** Between two samples: the left one at fraction 0, the right one at 1, in between rounded towards zero, and never
      outside. */
  lemma LerpIsBetween(s1: int, s2: int, num: nat, den: nat)
    requires num <= den && den > 0
    ensures Lerp(s1, s2, 0, den) == s1 && Lerp(s1, s2, den, den) == s2
    ensures Min(s1, s2) <= Lerp(s1, s2, num, den) <= Max(s1, s2)
    ensures var exact, q := s1 * (den - num) + s2 * num, Lerp(s1, s2, num, den);
            && (exact >= 0 ==> q * den <= exact < (q + 1) * den)
            && (exact <= 0 ==> (q - 1) * den < exact <= q * den)
  {
    var exact := s1 * (den - num) + s2 * num;
    TruncDivNear(exact, den);
    TruncDivBetween(s1 * den, den, s1, s1);
    TruncDivBetween(s2 * den, den, s2, s2);
    WeightedBetween(s1, s2, num, den);
    TruncDivBetween(exact, den, Min(s1, s2), Max(s1, s2));
  }

  lemma WeightedBetween(s1: int, s2: int, num: nat, den: nat)
    requires num <= den
    ensures Min(s1, s2) * den <= s1 * (den - num) + s2 * num <= Max(s1, s2) * den
  {
    var lo, hi, rest := Min(s1, s2), Max(s1, s2), den - num;
    MulMono(lo, s1, rest);
    MulMono(s1, hi, rest);
    MulMono(lo, s2, num);
    MulMono(s2, hi, num);
    assert lo * den == lo * rest + lo * num && hi * den == hi * rest + hi * num;
  }

  lemma LerpGrows(s1: int, s2: int, num: nat, more: nat, den: nat)
    requires num <= more <= den && den > 0
    ensures s1 <= s2 ==> Lerp(s1, s2, num, den) <= Lerp(s1, s2, more, den)
    ensures s1 >= s2 ==> Lerp(s1, s2, num, den) >= Lerp(s1, s2, more, den)
  {
    var a, b := s1 * (den - num) + s2 * num, s1 * (den - more) + s2 * more;
    assert b - a == (s2 - s1) * (more - num);
    if s1 <= s2 {
      MulMono(0, s2 - s1, more - num);
      TruncDivMonotone(a, b, den);
    }
    if s1 >= s2 {
      MulMono(s2 - s1, 0, more - num);
      TruncDivMonotone(b, a, den);
    }
  }

  /** At equal rates linear interpolation delays the stream by one frame. */
  lemma LinearDelays(r: Rates, channels: nat, x: seq<Frame>, k: nat)
    requires GoodRates(r) && r.source == r.target && AllWide(x, channels) && k < Count(r, |x|)
    ensures k < |x| && LinearOut(r, channels, x, k) == if k == 0 then Silence(channels) else x[k - 1]
  {
    PositionInside(r, |x|, k);
    DivUnique(k * r.source, r.target, k, 0);
    var left := Before(x, channels, k);
    BeforeWide(x, channels, k);
    forall c | 0 <= c < channels ensures Lerp(left[c], x[k][c], 0, r.target) == left[c] {
      LerpIsBetween(left[c], x[k][c], 0, r.target);
    }
  }

  // ---------------------------------------------------------------- cubic

  /** The resampler and the timescale filter code the same kernel, one by Horner's rule and one expanded. */
  lemma KernelsAgree(p0: int, p1: int, p2: int, p3: int, t: real)
    ensures Hermite(p0, p1, p2, p3, t) == Timescale.Cubic(p0 as real, p1 as real, p2 as real, p3 as real, t)
  {
    var t2 := t * t;
    var t3 := t2 * t;
    HermitePolynomial(p0, p1, p2, p3, t, t2, t3);
  }

  /** The kernel goes through the two middle samples, reads the same in both directions, and is exact on parabolas. */
  lemma CubicInterpolates(p0: real, p1: real, p2: real, p3: real, t: real)
    ensures Timescale.Cubic(p0, p1, p2, p3, 0.0) == p1 && Timescale.Cubic(p0, p1, p2, p3, 1.0) == p2
    ensures Timescale.Cubic(p0, p1, p2, p3, t) == Timescale.Cubic(p3, p2, p1, p0, 1.0 - t)
  {
    var u := 1.0 - t;
    var t2, u2 := t * t, u * u;
    var t3, u3 := t2 * t, u2 * u;
    assert u2 == 1.0 - 2.0 * t + t2;
    assert u3 == 1.0 - 3.0 * t + 3.0 * t2 - t3 by { assert (1.0 - 2.0 * t + t2) * (1.0 - t) == u2 * u; }
  }

  lemma CubicIsExactOnParabolas(a: real, b: real, c: real, t: real)
    ensures Timescale.Cubic(a - b + c, a, a + b + c, a + 2.0 * b + 4.0 * c, t) == a + b * t + c * (t * t)
  {
  }

  /** At equal rates Hermite interpolation gives the stream itself. */
  lemma HermiteIsIdentity(r: Rates, channels: nat, x: seq<Frame>, k: nat)
    requires GoodRates(r) && r.source == r.target && Samples(x, channels) && k < Count(r, |x|)
    ensures k < |x| && HermiteOut(r, channels, x, k) == x[k]
  {
    PositionInside(r, |x|, k);
    DivUnique(k * r.source, r.target, k, 0);
    OnTheFrame(r, channels, x, k);
    forall c | 0 <= c < channels ensures ToI16(x[k][c] as real) == x[k][c] {
      WholeToI16(x[k][c]);
    }
  }

  lemma WholeToI16(v: int)
    requires -32768 <= v <= 32767
    ensures ToI16(v as real) == v
  {
  }

  /** On an input frame the timescale filter gives its samples, one step closer to zero: they are scaled by 1/32768 and
      back by 32767. */
  lemma TimescaleOnFrames(p0: int, p1: int, p2: int, p3: int)
    requires -32768 <= p1 <= 32767
    ensures Timescale.Sample(p0, p1, p2, p3, 0.0) == if p1 > 0 then p1 - 1 else if p1 < 0 then p1 + 1 else 0
  {
    CubicInterpolates(p0 as real / 32768.0, p1 as real / 32768.0, p2 as real / 32768.0, p3 as real / 32768.0, 0.0);
    var w := p1 as real / 32768.0 * 32767.0;
    assert w == p1 as real - p1 as real / 32768.0;
    if p1 > 0 { assert w.Floor == p1 - 1; }
    if p1 < 0 { assert (-w).Floor == -p1 - 1; }
  }

  // ---------------------------------------------------------------- sinc

  /** Silence but for frame `m`, which is `a` in every channel. */
  function Click(channels: nat, n: nat, m: nat, a: int): (x: seq<Frame>)
    ensures |x| == n
    ensures forall i :: 0 <= i < n ==> x[i] == Level(channels, if i == m then a else 0)
    ensures AllWide(x, channels)
  {
    seq(n, i requires 0 <= i < n => Level(channels, if i == m then a else 0))
  }

  function Tap(table: seq<real>, n: nat, j: int, a: int): real
    requires n <= |table|
  {
    if 0 <= j < n then a as real * table[j] else 0.0
  }

  /** A window that is silent but for tap `j`. */
  lemma {:induction false} DotOfClick(w: seq<Frame>, table: seq<real>, channels: nat, c: nat, n: nat, j: int, a: int)
    requires n <= |w| && n <= |table| && c < channels && AllWide(w, channels)
    requires forall i :: 0 <= i < n ==> w[i][c] == if i == j then a else 0
    ensures Dot(w, table, channels, c, n) == Tap(table, n, j, a)
    decreases n
  {
    if n > 0 { DotOfClick(w, table, channels, c, n - 1, j, a); }
  }

  lemma WindowOfClick(channels: nat, taps: nat, n: nat, m: nat, a: int, i: nat, c: nat, q: nat)
    requires i < n && m < n && c < channels && q < taps
    ensures var w := Window(Click(channels, n, m, a), channels, taps, i + 1);
            |w[q]| == channels && w[q][c] == if q == taps - 1 - (i - m) then a else 0
  {
    var x := Click(channels, n, m, a);
    var w := Window(x, channels, taps, i + 1);
    if i + 1 + q < taps {
      assert w[q] == Silence(channels);
    } else {
      assert w[q] == x[i + 1 + q - taps];
    }
  }

  /** The response to a click of height `a` that lies `late` frames back. */
  function Response(table: seq<real>, late: int, a: int): int {
    ToI16(Tap(table, |table|, |table| - 1 - late, a))
  }

  lemma FirOfClick(channels: nat, table: seq<real>, n: nat, m: nat, a: int, i: nat, c: nat)
    requires i < n && m < n && c < channels
    ensures var w := Window(Click(channels, n, m, a), channels, |table|, i + 1);
            AllWide(w, channels) && Fir(w, table, channels)[c] == Response(table, i - m, a)
  {
    var x := Click(channels, n, m, a);
    var w := Window(x, channels, |table|, i + 1);
    WindowWide(x, channels, |table|, i + 1);
    var j := |table| - 1 - (i - m);
    forall q | 0 <= q < |table| ensures w[q][c] == if q == j then a else 0 {
      WindowOfClick(channels, |table|, n, m, a, i, c, q);
    }
    DotOfClick(w, table, channels, c, |table|, j, a);
    var f := Fir(w, table, channels);
    assert f[c] == ToI16(Dot(w, table, channels, c, |table|));
  }

  /** The table is the response to a click, last tap first: the output of a stream that is silent but for frame `m` is
      the tap that lies as far from the end as the position from `m`, times the click. */
  lemma SincImpulse(r: Rates, channels: nat, table: seq<real>, n: nat, m: nat, a: int, k: nat, i: nat, c: nat)
    requires GoodRates(r) && c < channels && k < Count(r, n) && m < n && i == (k * r.source) / r.target
    ensures SincOut(r, channels, table, Click(channels, n, m, a), k)[c] == Response(table, i - m, a)
  {
    PositionInside(r, n, k);
    FirOfClick(channels, table, n, m, a, i, c);
  }

  // ---------------------------------------------------------------- samples and straight lines

  /** Conversion to 16 bits: values in range are rounded towards zero, the others go to the nearest end. */
  lemma ToI16IsNearest(v: real)
    ensures -32768 <= ToI16(v) <= 32767
    ensures v > 32767.0 ==> ToI16(v) == 32767
    ensures v < -32768.0 ==> ToI16(v) == -32768
    ensures 0.0 <= v <= 32767.0 ==> ToI16(v) as real <= v < ToI16(v) as real + 1.0
    ensures -32768.0 <= v <= 0.0 ==> ToI16(v) as real - 1.0 < v <= ToI16(v) as real
  {
  }

  /** Channel `c` of the frames around frame `i` lies on the line a + b * index. */
  ghost predicate OnLine(x: seq<Frame>, channels: nat, c: nat, i: nat, a: int, b: int)
    requires AllWide(x, channels) && c < channels
  {
    1 <= i && i + 2 < |x| && forall j :: i - 1 <= j <= i + 2 ==> x[j][c] == a + b * j
  }

  /** Linear interpolation reproduces straight lines, one frame late. */
  lemma LinearFollowsLines(r: Rates, channels: nat, x: seq<Frame>, k: nat, i: nat, c: nat, a: int, b: int)
    requires GoodRates(r) && AllWide(x, channels) && k < Count(r, |x|) && c < channels
    requires i == (k * r.source) / r.target && OnLine(x, channels, c, i, a, b)
    ensures LinearOut(r, channels, x, k)[c] == TruncDiv((a - b) * r.target + b * (k * r.source), r.target)
  {
    var num, den := (k * r.source) % r.target, r.target;
    assert k * r.source == i * den + num;
    LinePoint(a, b, i, num, den);
  }

  lemma LinePoint(a: int, b: int, i: int, num: int, den: int)
    ensures (a + b * (i - 1)) * (den - num) + (a + b * i) * num == (a - b) * den + b * (i * den + num)
  {
    assert (a + b * (i - 1)) * (den - num) == (a + b * (i - 1)) * den - (a + b * (i - 1)) * num;
    assert (a + b * i) * num == (a + b * (i - 1)) * num + b * num;
    assert (a + b * (i - 1)) * den == (a - b) * den + b * (i * den) by { assert b * (i * den) == (b * i) * den; }
  }

  /** So do both cubic kernels. */
  lemma CubicOnLine(a: real, b: real, i: real, t: real)
    ensures Timescale.Cubic(a + b * (i - 1.0), a + b * i, a + b * (i + 1.0), a + b * (i + 2.0), t) == a + b * (i + t)
  {
    var p := a + b * i;
    assert b * (i - 1.0) == b * i - b && b * (i + 1.0) == b * i + b && b * (i + 2.0) == b * i + 2.0 * b;
    CubicIsExactOnParabolas(p, b, 0.0, t);
    assert b * (i + t) == b * i + b * t;
  }

  lemma WholeLine(a: int, b: int, j: int)
    ensures (a + b * j) as real == a as real + b as real * j as real
  {
    assert (b * j) as real == b as real * j as real;
  }

  lemma HermiteOnLine(a: int, b: int, i: int, t: real)
    ensures Hermite(a + b * (i - 1), a + b * i, a + b * (i + 1), a + b * (i + 2), t) ==
            a as real + b as real * (i as real + t)
  {
    KernelsAgree(a + b * (i - 1), a + b * i, a + b * (i + 1), a + b * (i + 2), t);
    WholeLine(a, b, i - 1);
    WholeLine(a, b, i);
    WholeLine(a, b, i + 1);
    WholeLine(a, b, i + 2);
    CubicOnLine(a as real, b as real, i as real, t);
  }

  lemma HermiteChannel(r: Rates, channels: nat, x: seq<Frame>, k: nat, i: nat, c: nat, t: real)
    requires GoodRates(r) && AllWide(x, channels) && k < Count(r, |x|) && c < channels
    requires i == (k * r.source) / r.target && t == Fraction((k * r.source) % r.target, r.target)
    requires 1 <= i && i + 2 < |x|
    ensures HermiteOut(r, channels, x, k)[c] == ToI16(Hermite(x[i - 1][c], x[i][c], x[i + 1][c], x[i + 2][c], t))
  {
    PositionInside(r, |x|, k);
    BeforeWide(x, channels, i);
  }

  lemma HermiteFollowsLines(r: Rates, channels: nat, x: seq<Frame>, k: nat, i: nat, c: nat, a: int, b: int, t: real)
    requires GoodRates(r) && AllWide(x, channels) && k < Count(r, |x|) && c < channels
    requires i == (k * r.source) / r.target && t == Fraction((k * r.source) % r.target, r.target)
    requires OnLine(x, channels, c, i, a, b)
    ensures HermiteOut(r, channels, x, k)[c] == ToI16(a as real + b as real * (i as real + t))
  {
    HermiteChannel(r, channels, x, k, i, c, t);
    HermiteOnLine(a, b, i, t);
    assert x[i - 1][c] == a + b * (i - 1) && x[i][c] == a + b * i;
    assert x[i + 1][c] == a + b * (i + 1) && x[i + 2][c] == a + b * (i + 2);
  }

  /** A value between -1 and 1 as a 16-bit sample. */
  function FullScale(v: real): int {
    var w := (if v < -1.0 then -1.0 else if v > 1.0 then 1.0 else v) * 32767.0;
    if w >= 0.0 then w.Floor else -((-w).Floor)
  }

  /** Channel `c` of a stereo stream, on a line around frame `i`. */
  lemma TimescaleFollowsLines(x: seq<int>, i: nat, c: nat, t: real, a: int, b: int)
    requires c < 2 && 1 <= i && 2 * (i + 2) + 1 < |x|
    requires forall j :: i - 1 <= j <= i + 2 ==> x[2 * j + c] == a + b * j
    ensures Timescale.Between(x, i, c, t) == FullScale((a as real + b as real * (i as real + t)) / 32768.0)
  {
    assert x[2 * (i - 1) + c] == a + b * (i - 1) && x[2 * i + c] == a + b * i;
    assert x[2 * (i + 1) + c] == a + b * (i + 1) && x[2 * (i + 2) + c] == a + b * (i + 2);
    SampleOnLine(a, b, i, t);
  }

  lemma SampleOnLine(a: int, b: int, i: int, t: real)
    ensures Timescale.Sample(a + b * (i - 1), a + b * i, a + b * (i + 1), a + b * (i + 2), t) ==
            FullScale((a as real + b as real * (i as real + t)) / 32768.0)
  {
    WholeLine(a, b, i - 1);
    WholeLine(a, b, i);
    WholeLine(a, b, i + 1);
    WholeLine(a, b, i + 2);
    SampleOfPoints(a + b * (i - 1), a + b * i, a + b * (i + 1), a + b * (i + 2), a as real, b as real, i as real, t);
  }

  lemma SampleOfPoints(p0: int, p1: int, p2: int, p3: int, a: real, b: real, i: real, t: real)
    requires p0 as real == a + b * (i - 1.0) && p1 as real == a + b * i
    requires p2 as real == a + b * (i + 1.0) && p3 as real == a + b * (i + 2.0)
    ensures Timescale.Sample(p0, p1, p2, p3, t) == FullScale((a + b * (i + t)) / 32768.0)
  {
    SampleIsScaled(p0, p1, p2, p3, t);
    ScaledLine(a, b, i, t);
  }

  lemma SampleIsScaled(p0: int, p1: int, p2: int, p3: int, t: real)
    ensures Timescale.Sample(p0, p1, p2, p3, t) ==
            FullScale(Timescale.Cubic(p0 as real / 32768.0, p1 as real / 32768.0, p2 as real / 32768.0,
                                      p3 as real / 32768.0, t))
  {
  }

  lemma ScaledLine(a: real, b: real, i: real, t: real)
    ensures Timescale.Cubic((a + b * (i - 1.0)) / 32768.0, (a + b * i) / 32768.0, (a + b * (i + 1.0)) / 32768.0,
                            (a + b * (i + 2.0)) / 32768.0, t) == (a + b * (i + t)) / 32768.0
  {
    var a', b' := a / 32768.0, b / 32768.0;
    ScaledPoint(a, b, i - 1.0);
    ScaledPoint(a, b, i);
    ScaledPoint(a, b, i + 1.0);
    ScaledPoint(a, b, i + 2.0);
    ScaledPoint(a, b, i + t);
    CubicOnLine(a', b', i, t);
  }

  lemma ScaledPoint(a: real, b: real, j: real)
    ensures (a + b * j) / 32768.0 == a / 32768.0 + (b / 32768.0) * j
  {
    assert b * j / 32768.0 == (b / 32768.0) * j;
  }
}
