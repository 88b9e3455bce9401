/** The split angle of a band: its resolution, its quantisation and its entropy coding
    (`compute_qn` and `compute_theta` in native/opus/celt/bands.c, `isqrt32` in
    native/opus/celt/mathops.c; section 4.3.4.4 of RFC 6716). */
module AngleCoding {
  import opened Indexing

  // ---------------------------------------------------------------- resolution

  const EXP2_TABLE8: seq<int> := [16384, 17866, 19483, 21247, 23170, 25267, 27554, 30048]

  /** Levels for `qb` eighth-bits: 2^(qb/8) in table arithmetic, rounded up to an even number. */
  function QnOfBits(qb: int): int
    requires qb <= 64
  {
    if qb < 4 then 1
    else (Exp2(qb / 8, qb % 8) + 1) / 2 * 2
  }

  function Exp2(octave: int, step: int): int
    requires 0 <= octave <= 8 && 0 <= step < 8
  {
    EXP2_TABLE8[step] / Pow2(14 - octave)
  }

  function QnBits(n: int, b: int, offset: int, pulseCap: int, stereo: bool): int
    requires n >= 1
  {
    var n2 := if stereo && n == 2 then 2 * n - 2 else 2 * n - 1;
    Min(64, Min(b - pulseCap - 32, TruncDiv(b + n2 * offset, n2)))
  }

  function ComputeQn(n: int, b: int, offset: int, pulseCap: int, stereo: bool): int
    requires n >= 1
  {
    QnOfBits(QnBits(n, b, offset, pulseCap, stereo))
  }

  predicate GoodQn(qn: int) { qn % 2 == 0 && 2 <= qn <= 256 }

  lemma ShiftValues()
    ensures Pow2(6) == 64 && Pow2(7) == 128 && Pow2(8) == 256 && Pow2(9) == 512 && Pow2(10) == 1024
    ensures Pow2(11) == 2048 && Pow2(12) == 4096 && Pow2(13) == 8192 && Pow2(14) == 16384
  {
  }

  lemma QnOfBitsRange(qb: int)
    requires qb <= 64
    ensures QnOfBits(qb) == 1 || GoodQn(QnOfBits(qb))
    ensures qb >= 4 ==> QnOfBits(qb) != 1
  {
    if qb >= 4 { Exp2Range(qb / 8, qb % 8); }
  }

  lemma Exp2Range(octave: int, step: int)
    requires 0 <= octave <= 8 && 0 <= step < 8 && (octave == 8 ==> step == 0)
    ensures 1 <= Exp2(octave, step) <= 256
  {
    ShiftValues();
    var t, p := EXP2_TABLE8[step], Pow2(14 - octave);
    assert 16384 <= t <= 30048;
    Pow2Mono(14 - octave, 14);
    DivBelow(t, p, 1);
    if octave == 8 {
      DivUnique(16384, 64, 256, 0);
    } else {
      Pow2Mono(7, 14 - octave);
      DivBelow(t, p, 256);
    }
  }

  lemma QnOfBitsStep(qb: int)
    requires qb < 64
    ensures QnOfBits(qb) <= QnOfBits(qb + 1)
  {
    if qb < 4 {
      QnOfBitsRange(qb + 1);
    } else {
      Exp2Step(qb);
    }
  }

  lemma Exp2Step(qb: int)
    requires 0 <= qb < 64
    ensures Exp2(qb / 8, qb % 8) <= Exp2((qb + 1) / 8, (qb + 1) % 8)
  {
    var e, f := qb / 8, qb % 8;
    if f < 7 {
      DivUnique(qb + 1, 8, e, f + 1);
      SameOctave(e, f);
    } else {
      DivUnique(qb + 1, 8, e + 1, 0);
      NextOctave(e);
    }
  }

  lemma SameOctave(e: int, f: int)
    requires 0 <= e <= 8 && 0 <= f < 7
    ensures Exp2(e, f) <= Exp2(e, f + 1)
  {
    DivMonotone(EXP2_TABLE8[f], EXP2_TABLE8[f + 1], Pow2(14 - e));
  }

  lemma NextOctave(e: int)
    requires 0 <= e < 8
    ensures Exp2(e, 7) <= Exp2(e + 1, 0)
  {
    // the last entry of an octave is below twice the first
    var half := Pow2(13 - e);
    DivMonotone(30048, 32768, 2 * half);
    DivUnique(32768, 2 * half, 16384 / half, 2 * (16384 % half));
  }

  lemma {:induction false} QnOfBitsMonotone(q1: int, q2: int)
    requires q1 <= q2 <= 64
    ensures QnOfBits(q1) <= QnOfBits(q2)
    decreases q2 - q1
  {
    if q1 < q2 {
      QnOfBitsMonotone(q1, q2 - 1);
      QnOfBitsStep(q2 - 1);
    }
  }

  /** The angle gets either no levels at all or an even number between 2 and 256, and a bigger bit
      budget never makes it coarser. */
  lemma ResolutionIsSane(n: int, b: int, b': int, offset: int, pulseCap: int, stereo: bool)
    requires n >= 1 && b <= b'
    ensures var qn, qn' := ComputeQn(n, b, offset, pulseCap, stereo), ComputeQn(n, b', offset, pulseCap, stereo);
            (qn == 1 || GoodQn(qn)) && qn <= qn'
  {
    var n2 := if stereo && n == 2 then 2 * n - 2 else 2 * n - 1;
    TruncDivMonotone(b + n2 * offset, b' + n2 * offset, n2);
    QnOfBitsRange(QnBits(n, b, offset, pulseCap, stereo));
    QnOfBitsMonotone(QnBits(n, b, offset, pulseCap, stereo), QnBits(n, b', offset, pulseCap, stereo));
  }

  /** The eighth power. */
  function Eighth(a: nat): nat {
    var a2 := a * a;
    var a4 := a2 * a2;
    a4 * a4
  }

  lemma LowerEighths()
    ensures var one := Eighth(16384);
            && Eighth(17866) <= 2 * one < Eighth(17867) && Eighth(19483) <= 4 * one < Eighth(19484)
            && Eighth(21247) <= 8 * one < Eighth(21248) && one < Eighth(16385)
  {
  }

  lemma UpperEighths()
    ensures var one := Eighth(16384);
            && Eighth(23170) <= 16 * one < Eighth(23171) && Eighth(25267) <= 32 * one < Eighth(25268)
            && Eighth(27554) <= 64 * one < Eighth(27555) && Eighth(30048) <= 128 * one < Eighth(30049)
  {
  }

  /** The table holds the eighths of an octave, rounded down: t^8 <= 2^i * 16384^8 < (t + 1)^8. */
  lemma TableIsExponential(i: nat)
    requires i < 8
    ensures Eighth(EXP2_TABLE8[i]) <= Pow2(i) * Eighth(16384) < Eighth(EXP2_TABLE8[i] + 1)
  {
    LowerEighths();
    UpperEighths();
    SmallPowers();
    var one := Eighth(16384);
    assert EXP2_TABLE8[i] == if i == 0 then 16384 else if i == 1 then 17866 else if i == 2 then 19483
                             else if i == 3 then 21247 else if i == 4 then 23170 else if i == 5 then 25267
                             else if i == 6 then 27554 else 30048;
  }

  lemma SmallPowers()
    ensures Pow2(0) == 1 && Pow2(1) == 2 && Pow2(2) == 4 && Pow2(3) == 8
    ensures Pow2(4) == 16 && Pow2(5) == 32 && Pow2(6) == 64 && Pow2(7) == 128
  {
  }

  /** At whole bits the resolution is a power of two. */
  lemma WholeBits(e: nat)
    requires 1 <= e <= 8
    ensures QnOfBits(8 * e) == Pow2(e)
  {
    DivUnique(8 * e, 8, e, 0);
    WholeOctave(e);
    QnAt(8 * e, e, 0, Pow2(e - 1));
  }

  lemma QnAt(qb: int, octave: int, step: int, h: nat)
    requires 4 <= qb <= 64 && octave == qb / 8 && step == qb % 8 && Exp2(octave, step) == 2 * h
    ensures QnOfBits(qb) == 2 * h
  {
  }

  lemma WholeOctave(e: nat)
    requires e <= 8
    ensures Exp2(e, 0) == Pow2(e)
  {
    var p := Pow2(14 - e);
    Pow2Split(e, 14 - e);
    ShiftValues();
    DivUnique(16384, p, Pow2(e), 0);
  }

  /** The degrees of freedom the angle is charged to: one less for a stereo pair. */
  function Freedom(n: int, stereo: bool): int { if stereo && n == 2 then 2 else 2 * n - 1 }

  lemma TruncDivAtLeast(a: int, d: int, k: nat)
    requires d > 0 && k > 0
    ensures TruncDiv(a, d) >= k <==> a >= k * d
  {
    MulMono(1, k, d);
    if a >= 0 { DivBelow(a, d, k); } else { DivBelow(-a, d, 0); }
  }

  lemma BitsAtLeast(n: int, b: int, offset: int, pulseCap: int, stereo: bool, k: nat)
    requires n >= 1 && 0 < k <= 64
    ensures QnBits(n, b, offset, pulseCap, stereo) >= k <==>
            b - pulseCap - 32 >= k && b + Freedom(n, stereo) * offset >= k * Freedom(n, stereo)
  {
    var n2 := Freedom(n, stereo);
    TruncDivAtLeast(b + n2 * offset, n2, k);
  }

  /** An angle is coded if and only if at least half a bit is left for it beyond the pulses and four bits in reserve,
      and half a bit for every degree of freedom. */
  lemma AngleIsCodedIff(n: int, b: int, offset: int, pulseCap: int, stereo: bool)
    requires n >= 1
    ensures ComputeQn(n, b, offset, pulseCap, stereo) != 1 <==>
            b >= pulseCap + 36 && b + Freedom(n, stereo) * offset >= 4 * Freedom(n, stereo)
  {
    BitsAtLeast(n, b, offset, pulseCap, stereo, 4);
    QnOfBitsRange(QnBits(n, b, offset, pulseCap, stereo));
  }

  /** The resolution is at least 2^e if both limits leave e bits, and at most 2^e if one of them does not leave more. */
  lemma ResolutionFollowsBits(n: int, b: int, offset: int, pulseCap: int, stereo: bool, e: nat)
    requires n >= 1 && 1 <= e <= 8
    ensures var n2, qn := Freedom(n, stereo), ComputeQn(n, b, offset, pulseCap, stereo);
            && (b - pulseCap - 32 >= 8 * e && b + n2 * offset >= 8 * e * n2 ==> qn >= Pow2(e))
            && (b - pulseCap - 32 <= 8 * e || b + n2 * offset < (8 * e + 1) * n2 ==> qn <= Pow2(e))
  {
    var qb := QnBits(n, b, offset, pulseCap, stereo);
    WholeBits(e);
    BitsAtLeast(n, b, offset, pulseCap, stereo, 8 * e);
    if qb >= 8 * e { QnOfBitsMonotone(8 * e, qb); }
    if e < 8 { BitsAtLeast(n, b, offset, pulseCap, stereo, 8 * e + 1); }
    if qb <= 8 * e { QnOfBitsMonotone(qb, 8 * e); }
  }

  /** It is never finer than the bits beyond the pulses and the reserve allow. */
  lemma ReserveBoundsResolution(n: int, b: int, offset: int, pulseCap: int, stereo: bool)
    requires n >= 1
    ensures ComputeQn(n, b, offset, pulseCap, stereo) <= QnOfBits(Min(64, b - pulseCap - 32))
  {
    QnOfBitsMonotone(QnBits(n, b, offset, pulseCap, stereo), Min(64, b - pulseCap - 32));
  }

  // ---------------------------------------------------------------- quantisation

  /** 16384 stands for a quarter turn. */
  const QUARTER := 16384

  function Quantise(itheta: int, qn: int): int { (itheta * qn + 8192) / QUARTER }

  function Dequantise(x: int, qn: int): int
    requires qn > 0
  {
    x * QUARTER / qn
  }

  /** Quantising stays within the levels, is off by at most half a level, and is the identity on what
      the decoder reconstructs; only the end levels reconstruct to the end angles. */
  lemma QuantiseRoundTrip(itheta: int, x: int, qn: int)
    requires GoodQn(qn) && 0 <= itheta <= QUARTER && 0 <= x <= qn
    ensures 0 <= Quantise(itheta, qn) <= qn
    ensures -8192 <= Quantise(itheta, qn) * QUARTER - itheta * qn <= 8192
    ensures Quantise(Dequantise(x, qn), qn) == x
    ensures (Dequantise(x, qn) == 0 <==> x == 0) && (Dequantise(x, qn) == QUARTER <==> x == qn)
  {
    MulMono(itheta, QUARTER, qn);
    MulMono(0, itheta, qn);
    var y, r := x * QUARTER / qn, x * QUARTER % qn;
    assert y * qn + r == x * QUARTER && 0 <= r < qn;
    if x == qn { DivUnique(x * QUARTER, qn, QUARTER, 0); }
    if x == 0 { DivUnique(0, qn, 0, 0); }
  }

  /** The encoder's other rounding: toward one neighbour on purpose, biased to the ends of the range. */
  function BiasedDown(itheta: int, qn: int): int
    requires qn > 0
  {
    var bias := if itheta > 8192 then 32767 / qn else -(32767 / qn);
    Min(qn - 1, Max(0, (itheta * qn + bias) / QUARTER))
  }

  /** Rounding down or up stays within the levels and is off by at most one level and the bias; the end angles reach
      the end levels. */
  lemma BiasedIsNear(itheta: int, qn: int, up: bool)
    requires GoodQn(qn) && 0 <= itheta <= QUARTER
    ensures var x := BiasedDown(itheta, qn) + (if up then 1 else 0);
            && 0 <= x <= qn
            && -(QUARTER + 32767 / qn) <= x * QUARTER - itheta * qn <= QUARTER + 32767 / qn
            && (itheta == 0 && !up ==> x == 0)
            && (itheta == QUARTER && up ==> x == qn)
    // up to the middle the bias is towards 0, and beyond it towards the other end
    ensures itheta <= 8192 ==> BiasedDown(itheta, qn) * QUARTER <= Max(0, itheta * qn - 32767 / qn)
    ensures itheta > 8192 ==>
              BiasedDown(itheta, qn) == qn - 1 || itheta * qn + 32767 / qn < (BiasedDown(itheta, qn) + 1) * QUARTER
  {
    MulMono(itheta, QUARTER, qn);
    MulMono(0, itheta, qn);
    DivMonotone(0, 32767, qn);
  }

  // ---------------------------------------------------------------- integer square root

  predicate IsRoot(v: int, g: int) { g >= 0 && g * g <= v < (g + 1) * (g + 1) }

  function Isqrt(v: nat): (g: nat)
    ensures IsRoot(v, g)
  {
    IsqrtFrom(v, 0)
  }

  function IsqrtFrom(v: nat, lo: nat): (g: nat)
    requires lo * lo <= v
    ensures IsRoot(v, g)
    decreases v - lo
  {
    if (lo + 1) * (lo + 1) <= v then
      assert lo < v by { assert lo + 1 <= (lo + 1) * (lo + 1); }
      IsqrtFrom(v, lo + 1)
    else lo
  }

  lemma RootUnique(v: int, g: int, g': int)
    requires IsRoot(v, g) && IsRoot(v, g')
    ensures g == g'
  {
    if g < g' { SquareMono(g + 1, g'); }
    if g' < g { SquareMono(g' + 1, g); }
  }

  lemma SquareMono(a: int, b: int)
    requires 0 <= a <= b
    ensures a * a <= b * b
  {
    MulMono(a, b, a);
    MulMono(a, b, b);
  }

  /** Number of bits of `v` (EC_ILOG). */
  function BitLength(v: nat): (l: nat)
    ensures v < Pow2(l) && (v > 0 ==> l > 0 && Pow2(l - 1) <= v)
  {
    if v == 0 then 0 else 1 + BitLength(v / 2)
  }

  /** After the digits above `bshift`: `rest` is what is left of `v`, and the root lies in
      [g, g + span). */
  ghost predicate RootSearch(v: int, g: int, rest: int, span: int) {
    0 <= g && 0 < span && g + span <= 0x1_0000 && rest == v - g * g && 0 <= rest && v < (g + span) * (g + span)
  }

  lemma RootDigit(v: int, g: int, rest: int, b: int)
    requires b > 0 && RootSearch(v, g, rest, 2 * b)
    ensures var t := (2 * g + b) * b;
            && 0 <= t < 0x1_0000_0000
            && if t <= rest then RootSearch(v, g + b, rest - t, b) else RootSearch(v, g, rest, b)
  {
    var t := (2 * g + b) * b;
    assert (g + b) * (g + b) == g * g + t by {
      assert (2 * g + b) * b == g * b + g * b + b * b;
    }
    SquareMono(g + b, 0xFFFF);
    assert t >= 0 && g * g >= 0;
  }

  /** `isqrt32`: the binary digit search finds the floor of the square root of every nonzero 32-bit
      value, and no intermediate value leaves 32 bits. */
  method Isqrt32(v: nat) returns (g: nat)
    requires 0 < v < 0x1_0000_0000
    ensures g == Isqrt(v)
  {
    var rest := v;
    g := 0;
    var bshift: int := (BitLength(v) - 1) / 2;
    var b := Pow2(bshift);
    FirstDigit(v, bshift);
    ghost var span := 2 * b;
    while bshift >= 0
      invariant -1 <= bshift
      invariant bshift >= 0 ==> b == Pow2(bshift) && span == 2 * b
      invariant bshift < 0 ==> span == 1
      invariant RootSearch(v, g, rest, span)
    {
      RootDigit(v, g, rest, b);
      var t := (2 * g + b) * b;
      span := b;
      if t <= rest {
        g := g + b;
        rest := rest - t;
      }
      b := b / 2;
      bshift := bshift - 1;
    }
    RootUnique(v, g, Isqrt(v));
  }

  lemma FirstDigit(v: nat, bshift: nat)
    requires 0 < v < 0x1_0000_0000 && bshift == (BitLength(v) - 1) / 2
    ensures RootSearch(v, 0, v, 2 * Pow2(bshift))
  {
    LengthBound(v);
    SmallDigit(bshift);
    SquareCovers(v, bshift);
  }

  lemma SmallDigit(bshift: nat)
    requires bshift <= 15
    ensures 2 * Pow2(bshift) <= 0x1_0000
  {
    Pow2Values();
    Pow2Mono(bshift, 15);
  }

  lemma SquareCovers(v: nat, bshift: nat)
    requires v > 0 && bshift == (BitLength(v) - 1) / 2
    ensures v < (2 * Pow2(bshift)) * (2 * Pow2(bshift))
  {
    var half := bshift + 1;
    Pow2Mono(BitLength(v), half + half);
    Pow2Split(half, half);
  }

  lemma LengthBound(v: nat)
    requires 0 < v < 0x1_0000_0000
    ensures BitLength(v) <= 32
  {
    Pow2Values();
    if BitLength(v) > 32 { Pow2Mono(32, BitLength(v) - 1); }
  }

  lemma Pow2Values()
    ensures Pow2(15) == 0x8000 && Pow2(32) == 0x1_0000_0000
  {
    ShiftValues();
    assert Pow2(15) == 2 * Pow2(14) && Pow2(16) == 2 * Pow2(15);
    Pow2Split(16, 16);
  }

  lemma {:induction false} Pow2Mono(a: nat, b: nat)
    requires a <= b
    ensures Pow2(a) <= Pow2(b)
    decreases b - a
  {
    if a < b { Pow2Mono(a, b - 1); }
  }

  // ---------------------------------------------------------------- entropy coding

  /** The probability model: a step for the stereo angle, a triangle for a frequency split. */
  datatype Pdf = Stepped | Triangular

  /** What the range coder is told: symbol [low, high) out of [0, total). */
  datatype Interval = Interval(low: int, high: int, total: int)

  function Tri(k: int): int { k * (k + 1) / 2 }

  function Total(pdf: Pdf, qn: int): int {
    match pdf
    case Stepped => 3 * (qn / 2 + 1) + qn / 2
    case Triangular => (qn / 2 + 1) * (qn / 2 + 1)
  }

  /** The interval the encoder sends for level `x`. */
  function Encode(pdf: Pdf, qn: int, x: int): Interval {
    var h, ft := qn / 2, Total(pdf, qn);
    match pdf
    case Stepped =>
      if x <= h then Interval(3 * x, 3 * (x + 1), ft)
      else Interval((x - 1 - h) + (h + 1) * 3, (x - h) + (h + 1) * 3, ft)
    case Triangular =>
      if x <= h then Interval(Tri(x), Tri(x) + (x + 1), ft)
      else
        var fl := ft - Tri(qn + 1 - x);
        Interval(fl, fl + (qn + 1 - x), ft)
  }

  /** The level and the interval the decoder derives from the value `fm` the range decoder yields. */
  function Decode(pdf: Pdf, qn: int, fm: int): (int, Interval)
    requires 0 <= fm < Total(pdf, qn)
  {
    var h, ft := qn / 2, Total(pdf, qn);
    match pdf
    case Stepped =>
      var x := if fm < (h + 1) * 3 then fm / 3 else h + 1 + (fm - (h + 1) * 3);
      (x, if x <= h then Interval(3 * x, 3 * (x + 1), ft)
          else Interval((x - 1 - h) + (h + 1) * 3, (x - h) + (h + 1) * 3, ft))
    case Triangular =>
      if fm < Tri(h) then
        var x := (Isqrt(8 * fm + 1) - 1) / 2;
        (x, Interval(Tri(x), Tri(x) + (x + 1), ft))
      else
        var x := (2 * (qn + 1) - Isqrt(8 * (ft - fm - 1) + 1)) / 2;
        var fl := ft - Tri(qn + 1 - x);
        (x, Interval(fl, fl + (qn + 1 - x), ft))
  }

  lemma TriStep(k: int)
    requires k >= 0
    ensures 2 * Tri(k) == k * (k + 1) && Tri(k + 1) == Tri(k) + k + 1
  {
    EvenProduct(k);
    EvenProduct(k + 1);
    assert (k + 1) * (k + 2) == k * (k + 1) + 2 * (k + 1);
  }

  lemma {:induction false} EvenProduct(k: int)
    requires k >= 0
    ensures k * (k + 1) % 2 == 0 && k * (k + 1) >= 0
  {
    if k > 0 {
      EvenProduct(k - 1);
      assert k * (k + 1) == (k - 1) * k + 2 * k;
    }
  }

  lemma {:induction false} TriMono(a: int, b: int)
    requires 0 <= a <= b
    ensures Tri(a) <= Tri(b)
    decreases b - a
  {
    if a < b {
      TriMono(a, b - 1);
      TriStep(b - 1);
    }
  }

  /** The triangular root computed from the integer square root. */
  lemma TriRoot(u: int)
    requires u >= 0
    ensures var k := (Isqrt(8 * u + 1) - 1) / 2;
            && 0 <= k && 2 * k + 1 <= Isqrt(8 * u + 1) <= 2 * k + 2
            && Tri(k) <= u < Tri(k + 1)
  {
    var s := Isqrt(8 * u + 1);
    assert s != 0;
    var k := (s - 1) / 2;
    TriStep(k);
    TriStep(k + 1);
    OddSquare(k);
    OddSquare(k + 1);
    SquareMono(2 * k + 1, s);
    SquareMono(s + 1, 2 * k + 3);
  }

  lemma OddSquare(k: int)
    requires k >= 0
    ensures (2 * k + 1) * (2 * k + 1) == 8 * Tri(k) + 1
  {
    TriStep(k);
    assert (2 * k + 1) * (2 * k + 1) == 4 * (k * (k + 1)) + 1;
  }

  /** (h + 1)^2 splits into the ascending and the descending slope. */
  lemma TriangleTotal(h: int)
    requires h >= 0
    ensures (h + 1) * (h + 1) == Tri(h) + Tri(h + 1)
  {
    TriStep(h);
    assert (h + 1) * (h + 1) == h * (h + 1) + (h + 1);
  }

  /** The intervals of the levels 0..qn tile [0, total): none is empty, each starts where the previous
      one ends, and together they reach from 0 to the total. */
  lemma IntervalsTile(pdf: Pdf, qn: int, x: int)
    requires GoodQn(qn) && 0 <= x <= qn
    ensures var i := Encode(pdf, qn, x);
            && i.low < i.high && i.total == Total(pdf, qn)
            && (x == 0 ==> i.low == 0)
            && (x == qn ==> i.high == i.total)
            && (x < qn ==> i.high == Encode(pdf, qn, x + 1).low)
  {
    if pdf.Triangular? {
      TriStep(x);
      TriangleTotal(qn / 2);
      if x < qn { TriStep(qn - x); }
    }
  }

  /** Every value the range decoder can yield decodes to a level whose encoder interval contains it,
      and the decoder updates with exactly that interval. */
  lemma DecodeFindsInterval(pdf: Pdf, qn: int, fm: int)
    requires GoodQn(qn) && 0 <= fm < Total(pdf, qn)
    ensures var (x, i) := Decode(pdf, qn, fm);
            0 <= x <= qn && i == Encode(pdf, qn, x) && i.low <= fm < i.high
  {
    if pdf.Triangular? {
      if fm < Tri(qn / 2) { RisingSlope(qn, fm); } else { FallingSlope(qn, fm); }
    }
  }

  lemma RisingSlope(qn: int, fm: int)
    requires GoodQn(qn) && 0 <= fm < Tri(qn / 2) && fm < Total(Triangular, qn)
    ensures var (x, i) := Decode(Triangular, qn, fm);
            0 <= x <= qn && i == Encode(Triangular, qn, x) && i.low <= fm < i.high
  {
    var h, k := qn / 2, (Isqrt(8 * fm + 1) - 1) / 2;
    TriRoot(fm);
    TriStep(k);
    if k >= h { TriMono(h, k); }
  }

  lemma FallingSlope(qn: int, fm: int)
    requires GoodQn(qn) && 0 <= Tri(qn / 2) <= fm < Total(Triangular, qn)
    ensures var (x, i) := Decode(Triangular, qn, fm);
            0 <= x <= qn && i == Encode(Triangular, qn, x) && i.low <= fm < i.high
  {
    var h, u := qn / 2, Total(Triangular, qn) - fm - 1;
    var k := (Isqrt(8 * u + 1) - 1) / 2;
    TriangleTotal(h);
    TriRoot(u);
    TriStep(k);
    TriStep(h);
    if k > h { TriMono(h + 1, k); }
    assert Decode(Triangular, qn, fm).0 == qn - k;
  }

  /** So whatever value inside the encoder's interval reaches the decoder, it recovers the level, the
      interval, and with them the angle. */
  lemma DecodeInvertsEncode(pdf: Pdf, qn: int, x: int, fm: int)
    requires GoodQn(qn) && 0 <= x <= qn && Encode(pdf, qn, x).low <= fm < Encode(pdf, qn, x).high
    ensures 0 <= fm < Total(pdf, qn)
    ensures Decode(pdf, qn, fm) == (x, Encode(pdf, qn, x))
  {
    LowIsOrdered(pdf, qn, 0, x);
    LowIsOrdered(pdf, qn, x, qn);
    IntervalsTile(pdf, qn, 0);
    IntervalsTile(pdf, qn, x);
    IntervalsTile(pdf, qn, qn);
    DecodeFindsInterval(pdf, qn, fm);
    var y := Decode(pdf, qn, fm).0;
    IntervalsTile(pdf, qn, y);
    if y < x { LowIsOrdered(pdf, qn, y + 1, x); }
    if x < y { LowIsOrdered(pdf, qn, x + 1, y); }
  }

  lemma {:induction false} LowIsOrdered(pdf: Pdf, qn: int, x: int, y: int)
    requires GoodQn(qn) && 0 <= x <= y <= qn
    ensures Encode(pdf, qn, x).low <= Encode(pdf, qn, y).low
    ensures Encode(pdf, qn, x).high <= Encode(pdf, qn, y).high
    decreases y - x
  {
    if x < y {
      LowIsOrdered(pdf, qn, x, y - 1);
      IntervalsTile(pdf, qn, y - 1);
      IntervalsTile(pdf, qn, y);
    }
  }
}
