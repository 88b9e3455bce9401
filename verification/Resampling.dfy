/** The streaming resamplers (engine/resample/linear.rs, hermite.rs and sinc.rs). A fractional input
    position is kept exactly, as a numerator over the target rate. */
module Resampling {
  import opened Common
  import opened Indexing

  /** One sample per channel. */
  type Frame = seq<int>

  datatype Rates = Rates(source: nat, target: nat)

  predicate GoodRates(r: Rates) { r.source > 0 && r.target > 0 }

  // ---------------------------------------------------------------- the output clock

  /** Frames emitted once `n` frames have arrived: ceil(n * target / source). */
  function Count(r: Rates, n: nat): nat
    requires GoodRates(r)
  {
    CountNonNegative(r, n);
    (n * r.target + r.source - 1) / r.source
  }

  lemma CountNonNegative(r: Rates, n: nat)
    requires GoodRates(r)
    ensures (n * r.target + r.source - 1) / r.source >= 0
  {
    MulMono(0, n, r.target);
    DivBelow(n * r.target + r.source - 1, r.source, 0);
  }

  /** Output frame `k` lies before the end of the first `n` input frames exactly if it is among the first
      Count(n). */
  lemma CountIff(r: Rates, n: nat, k: nat)
    requires GoodRates(r)
    ensures k < Count(r, n) <==> k * r.source < n * r.target
  {
    CountNonNegative(r, n);
    MulMono(0, n, r.target);
    DivBelow(n * r.target + r.source - 1, r.source, k + 1);
    assert (k + 1) * r.source == k * r.source + r.source;
  }

  lemma CountMonotone(r: Rates, m: nat, n: nat)
    requires GoodRates(r) && m <= n
    ensures Count(r, m) <= Count(r, n)
  {
    if Count(r, n) < Count(r, m) {
      CountIff(r, m, Count(r, n));
      CountIff(r, n, Count(r, n));
      MulMono(m, n, r.target);
    }
  }

  /** The position of output frame `k` inside the stream, seen from frame `n0` on. */
  lemma PositionFrom(r: Rates, n0: nat, k: nat, index: nat)
    requires GoodRates(r) && index == k * r.source - n0 * r.target
    ensures (k * r.source) / r.target == n0 + index / r.target
    ensures (k * r.source) % r.target == index % r.target
    ensures k * r.source >= 0 && index / r.target >= 0
  {
    DivShift(index, r.target, n0);
    DivBelow(index, r.target, 0);
    MulMono(0, n0, r.target);
  }

  // ---------------------------------------------------------------- interleaved samples and frames

  /** The whole frames of an interleaved buffer; a trailing partial frame is ignored. */
  function ToFrames(input: seq<int>, channels: nat): (fs: seq<Frame>)
    requires channels > 0
    ensures |fs| == |input| / channels && AllWide(fs, channels)
  {
    seq(|input| / channels, i requires 0 <= i < |input| / channels => FrameOf(input, channels, i))
  }

  function FrameOf(input: seq<int>, channels: nat, i: nat): (f: Frame)
    requires channels > 0 && i < |input| / channels
    ensures |f| == channels
  {
    FrameInside(|input|, channels, i);
    input[i * channels..(i + 1) * channels]
  }

  lemma FrameInside(len: nat, channels: nat, i: nat)
    requires channels > 0 && i < len / channels
    ensures 0 <= i * channels <= (i + 1) * channels == i * channels + channels <= len
  {
    MulMono(i + 1, len / channels, channels);
    MulMono(0, i, channels);
  }

  predicate AllWide(fs: seq<Frame>, channels: nat) { forall i :: 0 <= i < |fs| ==> |fs[i]| == channels }

  /** The same value in every channel. */
  function Level(channels: nat, v: int): (f: Frame)
    ensures |f| == channels && forall c :: 0 <= c < channels ==> f[c] == v
  {
    seq(channels, _ => v)
  }

  function Silence(channels: nat): Frame { Level(channels, 0) }

  /** The frame before frame `i`, silence before the first. */
  function Before(x: seq<Frame>, channels: nat, i: nat): Frame
    requires i <= |x|
  {
    if i == 0 then Silence(channels) else x[i - 1]
  }

  lemma BeforeWide(x: seq<Frame>, channels: nat, i: nat)
    requires i <= |x| && AllWide(x, channels)
    ensures |Before(x, channels, i)| == channels
  {
  }

  // ---------------------------------------------------------------- chunks of interleaved samples

  /** The frames a resampler sees: a partial frame at the end of a chunk is dropped, chunk by chunk. */
  function AllFrames(chunks: seq<seq<int>>, channels: nat): (x: seq<Frame>)
    requires channels > 0
    ensures AllWide(x, channels)
  {
    if chunks == [] then []
    else AllFrames(chunks[..|chunks| - 1], channels) + ToFrames(chunks[|chunks| - 1], channels)
  }

  function Total(lengths: seq<nat>): nat {
    if lengths == [] then 0 else Total(lengths[..|lengths| - 1]) + lengths[|lengths| - 1]
  }

  function Lengths(chunks: seq<seq<int>>): (lengths: seq<nat>)
    ensures |lengths| == |chunks| && forall i :: 0 <= i < |chunks| ==> lengths[i] == |chunks[i]|
  {
    seq(|chunks|, i requires 0 <= i < |chunks| => |chunks[i]|)
  }

  /** Chunks of these lengths end on frame boundaries, except behind the last whole frame of the stream. */
  ghost predicate OnBoundaries(lengths: seq<nat>, channels: nat)
    requires channels > 0
  {
    forall j {:trigger lengths[..j]} :: 0 <= j <= |lengths| ==>
      Total(lengths[..j]) % channels == 0 || Total(lengths[..j]) >= Total(lengths) / channels * channels
  }

  lemma {:induction false} TotalIsLength(chunks: seq<seq<int>>)
    ensures Total(Lengths(chunks)) == |Concat(chunks)|
  {
    if chunks != [] {
      var n := |chunks| - 1;
      TotalIsLength(chunks[..n]);
      assert Lengths(chunks)[..n] == Lengths(chunks[..n]);
    }
  }

  lemma {:induction false} TotalGrows(lengths: seq<nat>, j: nat)
    requires j <= |lengths|
    ensures Total(lengths[..j]) <= Total(lengths)
    decreases |lengths| - j
  {
    if j < |lengths| {
      TotalGrows(lengths, j + 1);
      assert lengths[..j + 1][..j] == lengths[..j];
    } else {
      assert lengths[..j] == lengths;
    }
  }

  lemma FrameEarlier(a: seq<int>, b: seq<int>, channels: nat, i: nat)
    requires channels > 0 && i < |a| / channels
    ensures i < |a + b| / channels && FrameOf(a + b, channels, i) == FrameOf(a, channels, i)
  {
    DivMonotone(|a|, |a + b|, channels);
    FrameInside(|a|, channels, i);
  }

  lemma FrameLater(a: seq<int>, b: seq<int>, channels: nat, q: nat, i: nat)
    requires channels > 0 && |a| == q * channels && i < |b| / channels
    ensures q + i < |a + b| / channels && FrameOf(a + b, channels, q + i) == FrameOf(b, channels, i)
  {
    DivShift(|b|, channels, q);
    FrameInside(|b|, channels, i);
    FrameInside(|a + b|, channels, q + i);
    assert (q + i) * channels == |a| + i * channels;
  }

  /** After whole frames, the frames of what follows follow. */
  lemma FramesSplit(a: seq<int>, b: seq<int>, channels: nat)
    requires channels > 0 && |a| % channels == 0
    ensures ToFrames(a + b, channels) == ToFrames(a, channels) + ToFrames(b, channels)
  {
    var all, early, late := ToFrames(a + b, channels), ToFrames(a, channels), ToFrames(b, channels);
    FrameCount(|a|, |b|, channels);
    forall i | 0 <= i < |early| ensures all[i] == early[i] { FrameEarlier(a, b, channels, i); }
    forall i | 0 <= i < |late| ensures all[|early| + i] == late[i] { FrameLater(a, b, channels, |early|, i); }
    Joined(all, early, late);
  }

  lemma FrameCount(a: nat, b: nat, channels: nat)
    requires channels > 0 && a % channels == 0
    ensures a == a / channels * channels && (a + b) / channels == a / channels + b / channels
  {
    DivShift(b, channels, a / channels);
  }

  lemma Joined(all: seq<Frame>, early: seq<Frame>, late: seq<Frame>)
    requires |all| == |early| + |late|
    requires forall i :: 0 <= i < |early| ==> all[i] == early[i]
    requires forall i :: 0 <= i < |late| ==> all[|early| + i] == late[i]
    ensures all == early + late
  {
    forall i | |early| <= i < |all| ensures all[i] == late[i - |early|] {
      assert all[|early| + (i - |early|)] == late[i - |early|];
    }
  }

  /** Samples that complete no frame add none. */
  lemma FramesSame(a: seq<int>, b: seq<int>, channels: nat)
    requires channels > 0 && (|a| + |b|) / channels == |a| / channels
    ensures ToFrames(a + b, channels) == ToFrames(a, channels)
  {
    forall i | 0 <= i < |a| / channels ensures ToFrames(a + b, channels)[i] == ToFrames(a, channels)[i] {
      FrameEarlier(a, b, channels, i);
    }
  }

  /** Between the last whole frame and the end nothing is completed. */
  lemma NothingCompleted(p: nat, q: nat, total: nat, channels: nat)
    requires channels > 0 && total / channels * channels <= p <= q <= total
    ensures q / channels == p / channels && (q - p) / channels == 0
  {
    var last := total / channels * channels;
    assert total == last + total % channels;
    DivUnique(p, channels, total / channels, p - last);
    DivUnique(q, channels, total / channels, q - last);
    DivUnique(q - p, channels, 0, q - p);
  }

  lemma {:induction false} BoundariesKeepFrames(chunks: seq<seq<int>>, channels: nat, j: nat)
    requires channels > 0 && j <= |chunks| && OnBoundaries(Lengths(chunks), channels)
    ensures AllFrames(chunks[..j], channels) == ToFrames(Concat(chunks[..j]), channels)
    decreases j
  {
    if j > 0 {
      var before, chunk := chunks[..j - 1], chunks[j - 1];
      BoundariesKeepFrames(chunks, channels, j - 1);
      assert chunks[..j][..j - 1] == before;
      var a, lengths := Concat(before), Lengths(chunks);
      TotalIsLength(before);
      TotalIsLength(chunks[..j]);
      assert lengths[..j - 1] == Lengths(before) && lengths[..j] == Lengths(chunks[..j]);
      if |a| % channels == 0 {
        FramesSplit(a, chunk, channels);
      } else {
        TotalGrows(lengths, j);
        NothingCompleted(|a|, |a| + |chunk|, Total(lengths), channels);
        FramesSame(a, chunk, channels);
        assert ToFrames(chunk, channels) == [];
      }
    }
  }

  ghost predicate Shaped(chunks: seq<seq<int>>, lengths: seq<nat>) {
    && Lengths(chunks) == lengths
    && forall i, j :: 0 <= i < |chunks| && 0 <= j < |chunks[i]| ==> -32768 <= chunks[i][j] <= 32767
  }

  /** Whatever the samples, the frames of the chunks are the frames of the whole. */
  ghost predicate FramesSurvive(lengths: seq<nat>, channels: nat)
    requires channels > 0
  {
    forall chunks :: Shaped(chunks, lengths) ==> AllFrames(chunks, channels) == ToFrames(Concat(chunks), channels)
  }

  /** The frames survive the chunking, for all samples, if and only if every chunk ends on a frame boundary, or behind
      the last whole frame of the stream. */
  lemma FramesSurviveIff(lengths: seq<nat>, channels: nat)
    requires channels > 0
    ensures FramesSurvive(lengths, channels) <==> OnBoundaries(lengths, channels)
  {
    if OnBoundaries(lengths, channels) {
      forall chunks | Shaped(chunks, lengths)
        ensures AllFrames(chunks, channels) == ToFrames(Concat(chunks), channels)
      {
        BoundariesKeepFrames(chunks, channels, |chunks|);
        assert chunks[..|chunks|] == chunks;
      }
    } else {
      var j :| 0 <= j <= |lengths| && Total(lengths[..j]) % channels != 0 &&
               Total(lengths[..j]) < Total(lengths) / channels * channels;
      TornFrame(lengths, channels, j);
      assert Shaped(Marked(lengths, j), lengths);
    }
  }

  /** Zeros up to the end of chunk `j`, ones from there on. */
  function Marked(lengths: seq<nat>, j: nat): (chunks: seq<seq<int>>)
    ensures |chunks| == |lengths|
    ensures forall i :: 0 <= i < |chunks| ==> chunks[i] == Level(lengths[i], if i < j then 0 else 1)
    ensures Lengths(chunks) == lengths
  {
    seq(|lengths|, i requires 0 <= i < |lengths| => Level(lengths[i], if i < j then 0 else 1))
  }

  /** A frame torn by a chunk boundary is lost, and the one after it comes too early. */
  lemma {:induction false} TornFrame(lengths: seq<nat>, channels: nat, j: nat)
    requires channels > 0 && j <= |lengths| && Total(lengths[..j]) % channels != 0
    requires Total(lengths[..j]) < Total(lengths) / channels * channels
    ensures AllFrames(Marked(lengths, j), channels) != ToFrames(Concat(Marked(lengths, j)), channels)
  {
    var chunks, p := Marked(lengths, j), Total(lengths[..j]);
    TotalIsLength(chunks);
    DivBelow(p, channels, Total(lengths) / channels);
    BeforeTheMark(lengths, channels, j);
    AfterTheMark(lengths, channels, j);
  }

  lemma {:induction false} BeforeTheMark(lengths: seq<nat>, channels: nat, j: nat)
    requires channels > 0 && j <= |lengths| && Total(lengths[..j]) % channels != 0
    requires Total(lengths[..j]) / channels < |Concat(Marked(lengths, j))| / channels
    ensures var f: nat := Total(lengths[..j]) / channels; ToFrames(Concat(Marked(lengths, j)), channels)[f][0] == 0
  {
    var all, front, p := Concat(Marked(lengths, j)), Concat(Marked(lengths, j)[..j]), Total(lengths[..j]);
    MarkedFront(lengths, j);
    FirstSample(all, front, channels, p / channels);
  }

  lemma {:induction false} MarkedFront(lengths: seq<nat>, j: nat)
    requires j <= |lengths|
    ensures var a := Concat(Marked(lengths, j)[..j]);
            && a <= Concat(Marked(lengths, j)) && |a| == Total(lengths[..j])
            && forall p :: 0 <= p < |a| ==> a[p] == 0
  {
    var chunks := Marked(lengths, j);
    var front := chunks[..j];
    assert Lengths(front) == lengths[..j];
    TotalIsLength(front);
    ConcatLevel(front, 0);
    assert chunks == front + chunks[j..];
    ConcatAppend(front, chunks[j..]);
  }

  /** The frame that the end of `a` falls into starts inside `a`. */
  lemma FirstSample(all: seq<int>, a: seq<int>, channels: nat, f: nat)
    requires channels > 0 && |a| % channels != 0 && f == |a| / channels < |all| / channels && a <= all
    ensures 0 <= f * channels < |a| && ToFrames(all, channels)[f][0] == a[f * channels]
  {
    FrameInside(|all|, channels, f);
    MulMono(0, f, channels);
  }

  lemma {:induction false} AfterTheMark(lengths: seq<nat>, channels: nat, j: nat)
    requires channels > 0 && j <= |lengths|
    ensures var f: nat, seen := Total(lengths[..j]) / channels, AllFrames(Marked(lengths, j), channels);
            f < |seen| ==> seen[f][0] == 1
  {
    var chunks, p := Marked(lengths, j), Total(lengths[..j]);
    var front, back := chunks[..j], chunks[j..];
    assert chunks == front + back && Lengths(front) == lengths[..j];
    TotalIsLength(front);
    AllFramesAppend(front, back, channels);
    AllFramesCount(front, channels);
    DivBelow(p, channels, |AllFrames(front, channels)|);
    AllFramesLevel(back, channels, 1);
  }

  lemma {:induction false} AllFramesAppend(a: seq<seq<int>>, b: seq<seq<int>>, channels: nat)
    requires channels > 0
    ensures AllFrames(a + b, channels) == AllFrames(a, channels) + AllFrames(b, channels)
    decreases |b|
  {
    if b == [] {
      assert a + b == a;
    } else {
      var n := |b| - 1;
      AllFramesAppend(a, b[..n], channels);
      assert (a + b)[..|a + b| - 1] == a + b[..n];
      var front, middle, last := AllFrames(a, channels), AllFrames(b[..n], channels), ToFrames(b[n], channels);
      assert (front + middle) + last == front + (middle + last);
    }
  }

  lemma {:induction false} AllFramesCount(chunks: seq<seq<int>>, channels: nat)
    requires channels > 0
    ensures |AllFrames(chunks, channels)| * channels <= |Concat(chunks)|
  {
    if chunks != [] {
      var n := |chunks| - 1;
      AllFramesCount(chunks[..n], channels);
      CountSum(|AllFrames(chunks[..n], channels)|, |ToFrames(chunks[n], channels)|, |AllFrames(chunks, channels)|,
               |Concat(chunks[..n])|, |chunks[n]|, channels);
    }
  }

  lemma CountSum(early: nat, late: nat, all: nat, before: nat, len: nat, channels: nat)
    requires channels > 0 && early * channels <= before && late == len / channels && all == early + late
    ensures all * channels <= before + len
  {
    assert late * channels <= len;
    assert all * channels == early * channels + late * channels;
  }

  lemma {:induction false} AllFramesLevel(chunks: seq<seq<int>>, channels: nat, v: int)
    requires channels > 0
    requires forall i, j :: 0 <= i < |chunks| && 0 <= j < |chunks[i]| ==> chunks[i][j] == v
    ensures forall i :: 0 <= i < |AllFrames(chunks, channels)| ==> AllFrames(chunks, channels)[i][0] == v
  {
    if chunks != [] {
      var n := |chunks| - 1;
      AllFramesLevel(chunks[..n], channels, v);
      forall i | 0 <= i < |chunks[n]| / channels ensures ToFrames(chunks[n], channels)[i][0] == v {
        FrameInside(|chunks[n]|, channels, i);
      }
    }
  }

  lemma {:induction false} ConcatLevel(chunks: seq<seq<int>>, v: int)
    requires forall i, j :: 0 <= i < |chunks| && 0 <= j < |chunks[i]| ==> chunks[i][j] == v
    ensures forall j :: 0 <= j < |Concat(chunks)| ==> Concat(chunks)[j] == v
  {
    if chunks != [] { ConcatLevel(chunks[..|chunks| - 1], v); }
  }

  // ---------------------------------------------------------------- linear interpolation

  /** `s1 * (1 - f) + s2 * f`, truncated, with f = num / den. */
  function Lerp(s1: int, s2: int, num: nat, den: nat): int
    requires den > 0
  {
    TruncDiv(s1 * (den - num) + s2 * num, den)
  }

  function LerpFrame(a: Frame, b: Frame, num: nat, den: nat): (f: Frame)
    requires |a| == |b| && den > 0
    ensures |f| == |a|
  {
    seq(|a|, c requires 0 <= c < |a| => Lerp(a[c], b[c], num, den))
  }

  /** Output frame `k` of the whole stream `x`: between the two frames around position k * source / target. */
  function LinearOut(r: Rates, channels: nat, x: seq<Frame>, k: nat): (f: Frame)
    requires GoodRates(r) && AllWide(x, channels) && k < Count(r, |x|)
    ensures |f| == channels
  {
    PositionInside(r, |x|, k);
    var i := (k * r.source) / r.target;
    BeforeWide(x, channels, i);
    LerpFrame(Before(x, channels, i), x[i], (k * r.source) % r.target, r.target)
  }

  lemma PositionInside(r: Rates, n: nat, k: nat)
    requires GoodRates(r) && k < Count(r, n)
    ensures 0 <= (k * r.source) / r.target < n
  {
    CountIff(r, n, k);
    MulMono(0, k, r.source);
    DivBelow(k * r.source, r.target, n);
    DivBelow(k * r.source, r.target, 0);
  }

  function LinearRun(r: Rates, channels: nat, x: seq<Frame>, from: nat, to: nat): (fs: seq<Frame>)
    requires GoodRates(r) && AllWide(x, channels) && from <= to <= Count(r, |x|)
    ensures |fs| == to - from
  {
    seq(to - from, i requires 0 <= i < to - from => LinearOut(r, channels, x, from + i))
  }

  lemma LinearRunNext(r: Rates, channels: nat, x: seq<Frame>, from: nat, k: nat)
    requires GoodRates(r) && AllWide(x, channels) && from <= k < Count(r, |x|)
    ensures Concat(LinearRun(r, channels, x, from, k + 1)) ==
            Concat(LinearRun(r, channels, x, from, k)) + LinearOut(r, channels, x, k)
  {
    var fs := LinearRun(r, channels, x, from, k + 1);
    assert fs[..|fs| - 1] == LinearRun(r, channels, x, from, k);
  }

  /** What was emitted for a prefix stays right when more input arrives. */
  lemma LinearOutStable(r: Rates, channels: nat, x: seq<Frame>, y: seq<Frame>, k: nat)
    requires GoodRates(r) && AllWide(x, channels) && AllWide(x + y, channels) && k < Count(r, |x|)
    ensures k < Count(r, |x + y|) && LinearOut(r, channels, x + y, k) == LinearOut(r, channels, x, k)
  {
    CountMonotone(r, |x|, |x + y|);
    PositionInside(r, |x|, k);
  }

  class LinearResampler {
    const rates: Rates
    const channels: nat
    /** numerator over the target rate */
    var index: nat
    var lastSamples: Frame
    /** every whole frame processed so far */
    ghost var history: seq<Frame>

    ghost predicate Valid()
      reads this
    {
      && GoodRates(rates) && channels > 0
      && AllWide(history, channels)
      && index == Count(rates, |history|) * rates.source - |history| * rates.target
      && lastSamples == Before(history, channels, |history|)
    }

    constructor (rates: Rates, channels: nat)
      requires GoodRates(rates) && channels > 0
      ensures Valid() && history == [] && this.rates == rates && this.channels == channels
    {
      this.rates, this.channels, index := rates, channels, 0;
      lastSamples := Silence(channels);
      history := [];
      new;
      EmptyCount(rates);
    }

    /** One chunk: the output is the next stretch of what the whole stream so far resamples to. */
    method Process(input: seq<int>) returns (output: seq<int>)
      requires Valid()
      modifies this
      ensures Valid() && history == old(history) + ToFrames(input, channels)
      ensures Count(rates, |old(history)|) <= Count(rates, |history|)
      ensures output == Concat(LinearRun(rates, channels, history, Count(rates, |old(history)|),
                                         Count(rates, |history|)))
    {
      var fs := ToFrames(input, channels);
      var n := |fs|;
      ghost var x, n0 := history + fs, |history|;
      ghost var k0 := Count(rates, n0);
      ghost var k := k0;
      CountMonotone(rates, n0, |x|);
      output := [];
      while index < n * rates.target
        invariant k0 <= k <= Count(rates, |x|)
        invariant index == k * rates.source - n0 * rates.target
        invariant output == Concat(LinearRun(rates, channels, x, k0, k))
        decreases Count(rates, |x|) - k
        modifies this`index
      {
        DueInChunk(rates, n0, n, k, index);
        var frame := EmitOne(fs, k);
        LinearRunNext(rates, channels, x, k0, k);
        output := output + frame;
        index := index + rates.source;
        k := k + 1;
      }
      LastPosition(rates, n0, n, k, index);
      index := index - n * rates.target;
      if n > 0 {
        lastSamples := fs[n - 1];
      }
      history := x;
    }

    /** The frame at the current position, which lies in the chunk `fs`. */
    method EmitOne(fs: seq<Frame>, ghost k: nat) returns (frame: Frame)
      requires GoodRates(rates) && channels > 0 && AllWide(history, channels) && AllWide(fs, channels)
      requires lastSamples == Before(history, channels, |history|)
      requires index < |fs| * rates.target && index == k * rates.source - |history| * rates.target
      ensures k < Count(rates, |history + fs|) && AllWide(history + fs, channels)
      ensures frame == LinearOut(rates, channels, history + fs, k)
    {
      ghost var x, n0 := history + fs, |history|;
      DueInChunk(rates, n0, |fs|, k, index);
      PositionFrom(rates, n0, k, index);
      DivBelow(index, rates.target, |fs|);
      var idx, fract := index / rates.target, index % rates.target;
      BeforeWide(history, channels, n0);
      var s1 := if idx == 0 then lastSamples else fs[idx - 1];
      var s2 := fs[idx];
      assert s1 == Before(x, channels, n0 + idx) && s2 == x[n0 + idx];
      frame := MixFrame(s1, s2, fract);
    }

    /** The per-channel loop. */
    method MixFrame(s1: Frame, s2: Frame, fract: nat) returns (frame: Frame)
      requires GoodRates(rates) && |s1| == channels && |s2| == channels
      ensures frame == LerpFrame(s1, s2, fract, rates.target)
    {
      frame := [];
      var c := 0;
      while c < channels
        invariant 0 <= c <= channels && |frame| == c
        invariant forall j :: 0 <= j < c ==> frame[j] == Lerp(s1[j], s2[j], fract, rates.target)
      {
        frame := frame + [Lerp(s1[c], s2[c], fract, rates.target)];
        c := c + 1;
      }
    }
  }

  lemma EmptyCount(r: Rates)
    requires GoodRates(r)
    ensures Count(r, 0) == 0
  {
    CountIff(r, 0, 0);
  }

  /** While the position is inside the chunk, output `k` is due. */
  lemma DueInChunk(r: Rates, n0: nat, n: nat, k: nat, index: nat)
    requires GoodRates(r) && index == k * r.source - n0 * r.target && index < n * r.target
    ensures k < Count(r, n0 + n) && index + r.source == (k + 1) * r.source - n0 * r.target
  {
    assert (n0 + n) * r.target == n0 * r.target + n * r.target;
    assert (k + 1) * r.source == k * r.source + r.source;
    CountIff(r, n0 + n, k);
  }

  lemma LastPosition(r: Rates, n0: nat, n: nat, k: nat, index: nat)
    requires GoodRates(r) && index == k * r.source - n0 * r.target && index >= n * r.target
    requires k <= Count(r, n0 + n)
    ensures k == Count(r, n0 + n) && index - n * r.target == k * r.source - (n0 + n) * r.target
  {
    assert (n0 + n) * r.target == n0 * r.target + n * r.target;
    CountIff(r, n0 + n, k);
  }

  lemma LinearRunExtends(r: Rates, channels: nat, x: seq<Frame>, y: seq<Frame>)
    requires GoodRates(r) && AllWide(x, channels) && AllWide(x + y, channels)
    ensures Count(r, |x|) <= Count(r, |x + y|)
    ensures Concat(LinearRun(r, channels, x + y, 0, Count(r, |x + y|))) ==
            Concat(LinearRun(r, channels, x, 0, Count(r, |x|))) +
            Concat(LinearRun(r, channels, x + y, Count(r, |x|), Count(r, |x + y|)))
  {
    var k0, k1 := Count(r, |x|), Count(r, |x + y|);
    CountMonotone(r, |x|, |x + y|);
    var early, late := LinearRun(r, channels, x, 0, k0), LinearRun(r, channels, x + y, k0, k1);
    forall k | 0 <= k < k0 ensures k < k1 && LinearOut(r, channels, x + y, k) == early[k] {
      LinearOutStable(r, channels, x, y, k);
    }
    assert LinearRun(r, channels, x + y, 0, k1) == early + late;
    ConcatAppend(early, late);
  }

  /** What the whole stream resamples to. */
  function LinearBatch(r: Rates, channels: nat, x: seq<Frame>): seq<int>
    requires GoodRates(r) && AllWide(x, channels)
  {
    Concat(LinearRun(r, channels, x, 0, Count(r, |x|)))
  }

  /** Chunk boundaries between frames do not matter: the concatenated output is the resampling of the concatenated
      samples, ceil(N * target / source) frames for N. In general each chunk loses its partial frame. */
  method LinearStream(rates: Rates, channels: nat, chunks: seq<seq<int>>) returns (output: seq<int>)
    requires GoodRates(rates) && channels > 0
    ensures output == LinearBatch(rates, channels, AllFrames(chunks, channels))
    ensures OnBoundaries(Lengths(chunks), channels) ==>
              output == LinearBatch(rates, channels, ToFrames(Concat(chunks), channels))
  {
    var resampler := new LinearResampler(rates, channels);
    output := [];
    EmptyCount(rates);
    var i := 0;
    while i < |chunks|
      invariant 0 <= i <= |chunks|
      invariant resampler.Valid() && resampler.rates == rates && resampler.channels == channels
      invariant resampler.history == AllFrames(chunks[..i], channels)
      invariant output == Concat(LinearRun(rates, channels, resampler.history, 0, Count(rates, |resampler.history|)))
    {
      assert chunks[..i + 1][..i] == chunks[..i];
      LinearRunExtends(rates, channels, resampler.history, ToFrames(chunks[i], channels));
      var piece := resampler.Process(chunks[i]);
      output := output + piece;
      i := i + 1;
    }
    assert chunks[..i] == chunks;
    if OnBoundaries(Lengths(chunks), channels) { BoundariesKeepFrames(chunks, channels, |chunks|); }
  }

  /** Off a frame boundary they do: one sample of a stereo frame at a time gives nothing, both at once give something,
      at all rates. */
  lemma TornFramesAreLost(r: Rates)
    requires GoodRates(r)
    ensures Concat([[1], [2]]) == Concat([[1, 2]])
    ensures LinearBatch(r, 2, AllFrames([[1], [2]], 2)) == [] && LinearBatch(r, 2, AllFrames([[1, 2]], 2)) != []
  {
    var torn: seq<seq<int>>, whole: seq<seq<int>> := [[1], [2]], [[1, 2]];
    assert torn[..1] == [[1]] && |torn[..1][..0]| == 0 && |whole[..0]| == 0;
    assert Concat(torn) == [1] + [2] && Concat(whole) == [1, 2];
    assert AllFrames(torn, 2) == [];
    assert AllFrames(whole, 2) == AllFrames(whole[..0], 2) + ToFrames([1, 2], 2);
    assert |AllFrames(whole, 2)| == 1;
    EmptyCount(r);
    CountIff(r, 1, 0);
    MulMono(1, r.target, 1);
    LinearRunNext(r, 2, AllFrames(whole, 2), 0, Count(r, 1) - 1);
  }

  // ---------------------------------------------------------------- Hermite interpolation

  /** Conversion of a clamped float to a 16-bit sample, truncating. */
  function ToI16(v: real): int {
    var w := if v < -32768.0 then -32768.0 else if v > 32767.0 then 32767.0 else v;
    if w >= 0.0 then w.Floor else -((-w).Floor)
  }

  function Hermite(p0: int, p1: int, p2: int, p3: int, t: real): real {
    var a, b, c, d := p0 as real, p1 as real, p2 as real, p3 as real;
    var c1 := 0.5 * (c - a);
    var c2 := a - 2.5 * b + 2.0 * c - 0.5 * d;
    var c3 := 0.5 * (d - a) + 1.5 * (b - c);
    ((c3 * t + c2) * t + c1) * t + b
  }

  function HermiteFrame(p0: Frame, p1: Frame, p2: Frame, p3: Frame, t: real): (f: Frame)
    requires |p0| == |p1| == |p2| == |p3|
    ensures |f| == |p0|
  {
    seq(|p0|, c requires 0 <= c < |p0| => ToI16(Hermite(p0[c], p1[c], p2[c], p3[c], t)))
  }

  /** The neighbours to the right are clamped to the frames known so far, which end at `end`. */
  function Clamped(i: nat, end: nat): nat
    requires end > 0
  {
    if i < end then i else end - 1
  }

  /** Output `k` as computed when exactly the frames `x` are known. */
  function HermiteOut(r: Rates, channels: nat, x: seq<Frame>, k: nat): (f: Frame)
    requires GoodRates(r) && AllWide(x, channels) && k < Count(r, |x|)
    ensures |f| == channels
  {
    PositionInside(r, |x|, k);
    var i := (k * r.source) / r.target;
    BeforeWide(x, channels, i);
    HermiteFrame(Before(x, channels, i), x[i], x[Clamped(i + 1, |x|)], x[Clamped(i + 2, |x|)],
                 Fraction((k * r.source) % r.target, r.target))
  }

  function HermiteRun(r: Rates, channels: nat, x: seq<Frame>, from: nat, to: nat): (fs: seq<Frame>)
    requires GoodRates(r) && AllWide(x, channels) && from <= to <= Count(r, |x|)
    ensures |fs| == to - from
  {
    seq(to - from, i requires 0 <= i < to - from => HermiteOut(r, channels, x, from + i))
  }

  lemma HermiteRunNext(r: Rates, channels: nat, x: seq<Frame>, from: nat, k: nat)
    requires GoodRates(r) && AllWide(x, channels) && from <= k < Count(r, |x|)
    ensures Concat(HermiteRun(r, channels, x, from, k + 1)) ==
            Concat(HermiteRun(r, channels, x, from, k)) + HermiteOut(r, channels, x, k)
  {
    var fs := HermiteRun(r, channels, x, from, k + 1);
    assert fs[..|fs| - 1] == HermiteRun(r, channels, x, from, k);
  }

  /** What later frames can still change. Output `k` computed when `n` frames are known is the same once `m` more are
      known, whatever the samples. */
  ghost predicate HermiteSettled(r: Rates, channels: nat, n: nat, m: nat, k: nat)
    requires GoodRates(r) && k < Count(r, n)
  {
    forall x: seq<Frame>, y: seq<Frame> | |x| == n && |y| == m && Samples(x, channels) && Samples(y, channels) ::
      k < Count(r, |x + y|) && HermiteOut(r, channels, x + y, k) == HermiteOut(r, channels, x, k)
  }

  /** Frames of 16-bit samples. */
  ghost predicate Samples(x: seq<Frame>, channels: nat) {
    AllWide(x, channels) && forall i, c :: 0 <= i < |x| && 0 <= c < channels ==> -32768 <= x[i][c] <= 32767
  }

  /** Both right neighbours are known, or the position is exactly on a frame. */
  predicate HermiteIsFinal(r: Rates, n: nat, k: nat)
    requires GoodRates(r)
  {
    (k * r.source) / r.target + 2 < n || (k * r.source) % r.target == 0
  }

  /** Hermite interpolation depends on the chunking: an output is settled if and only if nothing follows, both right
      neighbours are known, or the position is exactly on a frame. */
  lemma HermiteSettledIff(r: Rates, channels: nat, n: nat, m: nat, k: nat)
    requires GoodRates(r) && channels > 0 && k < Count(r, n)
    ensures HermiteSettled(r, channels, n, m, k) <==> m == 0 || HermiteIsFinal(r, n, k)
  {
    if m == 0 || HermiteIsFinal(r, n, k) {
      forall x: seq<Frame>, y: seq<Frame> | |x| == n && |y| == m && Samples(x, channels) && Samples(y, channels)
        ensures k < Count(r, |x + y|) && HermiteOut(r, channels, x + y, k) == HermiteOut(r, channels, x, k)
      {
        HermiteOutStable(r, channels, x, y, k);
      }
    } else {
      var x, y := HermiteDiffers(r, channels, n, m, k);
    }
  }

  lemma HermiteOutStable(r: Rates, channels: nat, x: seq<Frame>, y: seq<Frame>, k: nat)
    requires GoodRates(r) && AllWide(x, channels) && AllWide(y, channels) && k < Count(r, |x|)
    requires y == [] || HermiteIsFinal(r, |x|, k)
    ensures k < Count(r, |x + y|) && HermiteOut(r, channels, x + y, k) == HermiteOut(r, channels, x, k)
  {
    CountMonotone(r, |x|, |x + y|);
    PositionInside(r, |x|, k);
    if y == [] {
      assert x + y == x;
    } else if (k * r.source) / r.target + 2 >= |x| {
      OnTheFrame(r, channels, x, k);
      OnTheFrame(r, channels, x + y, k);
    }
  }

  /** On a frame the interpolation returns that frame. */
  lemma OnTheFrame(r: Rates, channels: nat, x: seq<Frame>, k: nat)
    requires GoodRates(r) && AllWide(x, channels) && k < Count(r, |x|) && (k * r.source) % r.target == 0
    ensures 0 <= (k * r.source) / r.target < |x|
    ensures HermiteOut(r, channels, x, k) == seq(channels, c requires 0 <= c < channels =>
              PositionInside(r, |x|, k); ToI16(x[(k * r.source) / r.target][c] as real))
  {
    PositionInside(r, |x|, k);
    var i := (k * r.source) / r.target;
    BeforeWide(x, channels, i);
    assert Fraction(0, r.target) == 0.0;
    forall c | 0 <= c < channels
      ensures HermiteOut(r, channels, x, k)[c] == ToI16(x[i][c] as real)
    {
      HermiteAtZero(Before(x, channels, i)[c], x[i][c], x[Clamped(i + 1, |x|)][c], x[Clamped(i + 2, |x|)][c]);
    }
  }

  lemma HermiteAtZero(p0: int, p1: int, p2: int, p3: int)
    ensures Hermite(p0, p1, p2, p3, 0.0) == p1 as real
  {
  }

  /** Silence but for frame `i`, which is `a`, and frame `i + 1`, which is `b`. */
  function Pulse(channels: nat, n: nat, i: nat, a: int, b: int): (x: seq<Frame>)
    ensures |x| == n
    ensures forall j :: 0 <= j < n ==> x[j] == Level(channels, if j == i then a else if j == i + 1 then b else 0)
    ensures AllWide(x, channels)
  {
    seq(n, j requires 0 <= j < n => Level(channels, if j == i then a else if j == i + 1 then b else 0))
  }

  /** The first channel of an output, by its four neighbours. */
  lemma HermiteOutAt(r: Rates, channels: nat, x: seq<Frame>, k: nat, i: nat, t: real)
    requires GoodRates(r) && channels > 0 && AllWide(x, channels) && k < Count(r, |x|)
    requires i == (k * r.source) / r.target && t == Fraction((k * r.source) % r.target, r.target)
    ensures i < |x| && |Before(x, channels, i)| == channels
    ensures HermiteOut(r, channels, x, k)[0] ==
            ToI16(Hermite(Before(x, channels, i)[0], x[i][0], x[Clamped(i + 1, |x|)][0], x[Clamped(i + 2, |x|)][0], t))
  {
    PositionInside(r, |x|, k);
    BeforeWide(x, channels, i);
  }

  /** Samples that show the difference: a pulse at the end of the chunk, and the loudest negative frames after it. */
  lemma HermiteDiffers(r: Rates, channels: nat, n: nat, m: nat, k: nat) returns (x: seq<Frame>, y: seq<Frame>)
    requires GoodRates(r) && channels > 0 && k < Count(r, n) && m > 0 && !HermiteIsFinal(r, n, k)
    ensures |x| == n && |y| == m && Samples(x, channels) && Samples(y, channels)
    ensures k < Count(r, |x + y|) && HermiteOut(r, channels, x + y, k) != HermiteOut(r, channels, x, k)
  {
    PositionInside(r, n, k);
    var i: nat := (k * r.source) / r.target;
    var t := Fraction((k * r.source) % r.target, r.target);
    ProperFraction((k * r.source) % r.target, r.target);
    var early := i + 1 == n || t <= 0.5;
    x := Pulse(channels, n, i, if early then 1 else 0, if early then 0 else 1);
    y := seq(m, _ => Level(channels, -32768));
    CountMonotone(r, n, |x + y|);
    HermiteOutAt(r, channels, x, k, i, t);
    HermiteOutAt(r, channels, x + y, k, i, t);
    if i + 1 == n { HermiteLast(t); } else { HermiteSecondLast(t); }
  }

  lemma ProperFraction(num: int, den: nat)
    requires 0 < num < den
    ensures 0.0 < Fraction(num, den) < 1.0
  {
  }

  /** Below one a value truncates to zero or less. */
  lemma Truncates(v: real)
    ensures v < 1.0 ==> ToI16(v) <= 0
    ensures v >= 1.0 ==> ToI16(v) >= 1
    ensures 1.0 <= v < 2.0 ==> ToI16(v) == 1
  {
  }

  lemma ProductPositive(a: real, b: real)
    requires a > 0.0 && b > 0.0
    ensures a * b > 0.0
  {
  }

  /** A proper fraction of a positive number. */
  lemma Part(x: real, t: real) returns (y: real)
    requires x > 0.0 && 0.0 < t < 1.0
    ensures y == x * t && 0.0 < y < x
  {
    y := x * t;
    PartOf(x, t, 1.0 - t, y);
  }

  lemma PartOf(x: real, t: real, u: real, y: real)
    requires x > 0.0 && t > 0.0 && u > 0.0 && t + u == 1.0 && y == x * t
    ensures 0.0 < y < x
  {
    ProductPositive(x, t);
    ProductPositive(x, u);
    Sum(x, t, u, 1.0, y, x * u);
  }

  lemma Sum(x: real, t: real, u: real, w: real, xt: real, xu: real)
    requires w == t + u && xt == x * t && xu == x * u
    ensures x * w == xt + xu
  {
  }

  lemma Difference(a: real, b: real, t: real, at: real, bt: real)
    requires at == a * t && bt == b * t
    ensures (a - b) * t == at - bt
  {
  }

  /** The square and the cube of a proper fraction, by linear bounds. */
  lemma Powers(t: real) returns (t2: real, t3: real)
    requires 0.0 < t < 1.0
    ensures t2 == t * t && t3 == t2 * t
    ensures 0.0 < t3 < t2 < t && t2 - t3 < t - t2 < 1.0 - t
    ensures t <= 0.5 ==> t3 <= 0.5 * t2
    ensures t > 0.5 ==> t2 - t3 >= 0.25 * (1.0 - t)
  {
    t2 := Part(t, t);
    t3 := Part(t2, t);
    var first := Part(1.0 - t, t);
    Difference(1.0, t, t, t, t2);
    var second := Part(t - t2, t);
    Difference(t, t2, t, t2, t3);
    SquareAgainstHalf(t, t2);
    CubeAgainstHalf(t, t2, t3);
  }

  lemma SquareAgainstHalf(t: real, t2: real)
    requires t2 == t * t
    ensures t > 0.5 ==> t2 > 0.25
  {
    if t > 0.5 { ProductPositive(t - 0.5, t + 0.5); }
  }

  lemma CubeAgainstHalf(t: real, t2: real, t3: real)
    requires 0.0 < t < 1.0 && t2 > 0.0 && t3 == t2 * t && (t > 0.5 ==> t2 > 0.25)
    ensures t <= 0.5 ==> t3 <= 0.5 * t2
    ensures t > 0.5 ==> t2 - t3 >= 0.25 * (1.0 - t)
  {
    if t < 0.5 {
      ProductPositive(t2, 0.5 - t);
    } else if t > 0.5 {
      ProductPositive(t2 - 0.25, 1.0 - t);
    }
  }

  lemma HermitePolynomial(p0: int, p1: int, p2: int, p3: int, t: real, t2: real, t3: real)
    requires t2 == t * t && t3 == t2 * t
    ensures var a, b, c, d := p0 as real, p1 as real, p2 as real, p3 as real;
            Hermite(p0, p1, p2, p3, t) ==
            b + 0.5 * (c - a) * t + (a - 2.5 * b + 2.0 * c - 0.5 * d) * t2 + (0.5 * (d - a) + 1.5 * (b - c)) * t3
  {
    var a, b, c, d := p0 as real, p1 as real, p2 as real, p3 as real;
    var c1, c2, c3 := 0.5 * (c - a), a - 2.5 * b + 2.0 * c - 0.5 * d, 0.5 * (d - a) + 1.5 * (b - c);
    assert ((c3 * t + c2) * t + c1) * t == c3 * t3 + c2 * t2 + c1 * t;
  }

  /** At the last frame of a chunk. */
  lemma HermiteLast(t: real)
    requires 0.0 < t < 1.0
    ensures ToI16(Hermite(0, 1, 1, 1, t)) == 1 && ToI16(Hermite(0, 1, -32768, -32768, t)) <= 0
  {
    var t2, t3 := Powers(t);
    HermitePolynomial(0, 1, 1, 1, t, t2, t3);
    HermitePolynomial(0, 1, -32768, -32768, t, t2, t3);
    Truncates(Hermite(0, 1, 1, 1, t));
    Truncates(Hermite(0, 1, -32768, -32768, t));
  }

  /** At the last frame but one. */
  lemma HermiteSecondLast(t: real)
    requires 0.0 < t < 1.0
    ensures t <= 0.5 ==> ToI16(Hermite(0, 1, 0, 0, t)) <= 0 && ToI16(Hermite(0, 1, 0, -32768, t)) >= 1
    ensures t > 0.5 ==> ToI16(Hermite(0, 0, 1, 1, t)) <= 0 && ToI16(Hermite(0, 0, 1, -32768, t)) >= 1
  {
    var t2, t3 := Powers(t);
    var a, b := if t <= 0.5 then 1 else 0, if t <= 0.5 then 0 else 1;
    HermitePolynomial(0, a, b, b, t, t2, t3);
    HermitePolynomial(0, a, b, -32768, t, t2, t3);
    Truncates(Hermite(0, a, b, b, t));
    Truncates(Hermite(0, a, b, -32768, t));
  }

  function HermiteBatch(r: Rates, channels: nat, x: seq<Frame>): seq<int>
    requires GoodRates(r) && AllWide(x, channels)
  {
    Concat(HermiteRun(r, channels, x, 0, Count(r, |x|)))
  }

  /** Chunk `i` ends after `ends[i]` frames of the stream; the last one ends it. */
  predicate Cuts(ends: seq<nat>) {
    forall i, j :: 0 <= i <= j < |ends| ==> ends[i] <= ends[j]
  }

  function StreamLength(ends: seq<nat>): nat
    requires Cuts(ends)
  {
    if ends == [] then 0 else ends[|ends| - 1]
  }

  /** The outputs due by the end of the first `j` chunks. */
  function Due(r: Rates, ends: seq<nat>, j: nat): nat
    requires GoodRates(r) && j <= |ends|
  {
    if j == 0 then 0 else Count(r, ends[j - 1])
  }

  lemma DueGrows(r: Rates, ends: seq<nat>, j: nat)
    requires GoodRates(r) && Cuts(ends) && j < |ends|
    ensures Due(r, ends, j) <= Due(r, ends, j + 1)
  {
    if j > 0 { CountMonotone(r, ends[j - 1], ends[j]); }
  }

  /** What the first `j` chunks of the stream `z` give. */
  function HermiteInChunks(r: Rates, channels: nat, z: seq<Frame>, ends: seq<nat>, j: nat): (fs: seq<Frame>)
    requires GoodRates(r) && AllWide(z, channels) && Cuts(ends) && |z| == StreamLength(ends) && j <= |ends|
    ensures |fs| == Due(r, ends, j)
  {
    if j == 0 then []
    else
      DueGrows(r, ends, j - 1);
      HermiteInChunks(r, channels, z, ends, j - 1) +
      HermiteRun(r, channels, z[..ends[j - 1]], Due(r, ends, j - 1), Due(r, ends, j))
  }

  /** An output is computed from the frames known at the end of its chunk. */
  lemma {:induction false} ChunkGives(r: Rates, channels: nat, z: seq<Frame>, ends: seq<nat>, j: nat, i: nat, k: nat)
    requires GoodRates(r) && AllWide(z, channels) && Cuts(ends) && |z| == StreamLength(ends)
    requires i < j <= |ends| && Due(r, ends, i) <= k < Due(r, ends, i + 1)
    ensures k < Due(r, ends, j)
    ensures HermiteInChunks(r, channels, z, ends, j)[k] == HermiteOut(r, channels, z[..ends[i]], k)
    decreases j
  {
    DueGrows(r, ends, j - 1);
    if i < j - 1 { ChunkGives(r, channels, z, ends, j - 1, i, k); }
  }

  lemma {:induction false} ChunkOfOutput(r: Rates, ends: seq<nat>, j: nat, k: nat) returns (i: nat)
    requires GoodRates(r) && j <= |ends| && k < Due(r, ends, j)
    ensures i < j && Due(r, ends, i) <= k < Due(r, ends, i + 1)
    decreases j
  {
    if k >= Due(r, ends, j - 1) { i := j - 1; } else { i := ChunkOfOutput(r, ends, j - 1, k); }
  }

  ghost predicate CutsAreInvisible(r: Rates, channels: nat, ends: seq<nat>)
    requires GoodRates(r) && Cuts(ends)
  {
    forall z: seq<Frame> | |z| == StreamLength(ends) && Samples(z, channels) ::
      HermiteInChunks(r, channels, z, ends, |ends|) == HermiteRun(r, channels, z, 0, Count(r, |z|))
  }

  /** Every output was final when its chunk ended, or nothing followed that chunk. */
  ghost predicate AllFinal(r: Rates, ends: seq<nat>)
    requires GoodRates(r) && Cuts(ends)
  {
    forall i: nat, k: nat | i < |ends| && Due(r, ends, i) <= k < Due(r, ends, i + 1) ::
      ends[i] == StreamLength(ends) || HermiteIsFinal(r, ends[i], k)
  }

  /** Cutting a stream into chunks goes unnoticed, for all samples, if and only if every output was final when its
      chunk ended or nothing followed that chunk. */
  lemma HermiteChunksIff(r: Rates, channels: nat, ends: seq<nat>)
    requires GoodRates(r) && channels > 0 && Cuts(ends)
    ensures CutsAreInvisible(r, channels, ends) <==> AllFinal(r, ends)
  {
    var n := |ends|;
    if AllFinal(r, ends) {
      forall z: seq<Frame> | |z| == StreamLength(ends) && Samples(z, channels)
        ensures HermiteInChunks(r, channels, z, ends, n) == HermiteRun(r, channels, z, 0, Count(r, |z|))
      {
        FinalChunks(r, channels, z, ends);
      }
    } else {
      var i: nat, k: nat :| i < n && Due(r, ends, i) <= k < Due(r, ends, i + 1) &&
                            !(ends[i] == StreamLength(ends) || HermiteIsFinal(r, ends[i], k));
      var x, y := HermiteDiffers(r, channels, ends[i], StreamLength(ends) - ends[i], k);
      var z := x + y;
      assert z[..ends[i]] == x;
      ChunkGives(r, channels, z, ends, n, i, k);
      assert HermiteInChunks(r, channels, z, ends, n)[k] != HermiteRun(r, channels, z, 0, Count(r, |z|))[k];
    }
  }

  lemma FinalChunks(r: Rates, channels: nat, z: seq<Frame>, ends: seq<nat>)
    requires GoodRates(r) && Cuts(ends) && |z| == StreamLength(ends) && AllWide(z, channels) && AllFinal(r, ends)
    ensures HermiteInChunks(r, channels, z, ends, |ends|) == HermiteRun(r, channels, z, 0, Count(r, |z|))
  {
    var n := |ends|;
    EmptyCount(r);
    forall k: nat | k < Count(r, |z|)
      ensures HermiteInChunks(r, channels, z, ends, n)[k] == HermiteOut(r, channels, z, k)
    {
      var i := ChunkOfOutput(r, ends, n, k);
      FinalGives(r, channels, z, ends, i, k);
    }
  }

  lemma FinalGives(r: Rates, channels: nat, z: seq<Frame>, ends: seq<nat>, i: nat, k: nat)
    requires GoodRates(r) && Cuts(ends) && |z| == StreamLength(ends) && AllWide(z, channels)
    requires i < |ends| && Due(r, ends, i) <= k < Due(r, ends, i + 1)
    requires ends[i] == |z| || HermiteIsFinal(r, ends[i], k)
    ensures k < Count(r, |z|)
    ensures HermiteInChunks(r, channels, z, ends, |ends|)[k] == HermiteOut(r, channels, z, k)
  {
    ChunkGives(r, channels, z, ends, |ends|, i, k);
    FinalStays(r, channels, z, ends[i], k);
  }

  lemma FinalStays(r: Rates, channels: nat, z: seq<Frame>, n: nat, k: nat)
    requires GoodRates(r) && AllWide(z, channels) && n <= |z| && k < Count(r, n)
    requires n == |z| || HermiteIsFinal(r, n, k)
    ensures k < Count(r, |z|) && HermiteOut(r, channels, z[..n], k) == HermiteOut(r, channels, z, k)
  {
    assert z[..n] + z[n..] == z;
    HermiteOutStable(r, channels, z[..n], z[n..], k);
  }

  class HermiteResampler {
    const rates: Rates
    const channels: nat
    var index: nat
    var lastSamples: Frame
    ghost var history: seq<Frame>

    ghost predicate Valid()
      reads this
    {
      && GoodRates(rates) && channels > 0
      && AllWide(history, channels)
      && index == Count(rates, |history|) * rates.source - |history| * rates.target
      && lastSamples == Before(history, channels, |history|)
    }

    constructor (rates: Rates, channels: nat)
      requires GoodRates(rates) && channels > 0
      ensures Valid() && history == [] && this.rates == rates && this.channels == channels
    {
      this.rates, this.channels, index := rates, channels, 0;
      lastSamples := Silence(channels);
      history := [];
      new;
      EmptyCount(rates);
    }

    /** The number of frames emitted depends on the number of frames received alone. */
    method Process(input: seq<int>) returns (output: seq<int>)
      requires Valid()
      modifies this
      ensures Valid() && history == old(history) + ToFrames(input, channels)
      ensures Count(rates, |old(history)|) <= Count(rates, |history|)
      ensures output == Concat(HermiteRun(rates, channels, history, Count(rates, |old(history)|),
                                          Count(rates, |history|)))
    {
      var fs := ToFrames(input, channels);
      var n := |fs|;
      ghost var x, n0 := history + fs, |history|;
      ghost var k0 := Count(rates, n0);
      ghost var k := k0;
      CountMonotone(rates, n0, |x|);
      output := [];
      while index < n * rates.target
        invariant k0 <= k <= Count(rates, |x|)
        invariant index == k * rates.source - n0 * rates.target
        invariant output == Concat(HermiteRun(rates, channels, x, k0, k))
        decreases Count(rates, |x|) - k
        modifies this`index
      {
        DueInChunk(rates, n0, n, k, index);
        var frame := EmitOne(fs, k);
        HermiteRunNext(rates, channels, x, k0, k);
        output := output + frame;
        index := index + rates.source;
        k := k + 1;
      }
      LastPosition(rates, n0, n, k, index);
      index := index - n * rates.target;
      if n > 0 {
        lastSamples := fs[n - 1];
      }
      history := x;
    }

    method EmitOne(fs: seq<Frame>, ghost k: nat) returns (frame: Frame)
      requires GoodRates(rates) && channels > 0 && AllWide(history, channels) && AllWide(fs, channels)
      requires lastSamples == Before(history, channels, |history|)
      requires index < |fs| * rates.target && index == k * rates.source - |history| * rates.target
      ensures k < Count(rates, |history + fs|) && AllWide(history + fs, channels)
      ensures frame == HermiteOut(rates, channels, history + fs, k)
    {
      ghost var x, n0 := history + fs, |history|;
      DueInChunk(rates, n0, |fs|, k, index);
      PositionFrom(rates, n0, k, index);
      DivBelow(index, rates.target, |fs|);
      var idx, fract := index / rates.target, index % rates.target;
      BeforeWide(history, channels, n0);
      var p0 := if idx == 0 then lastSamples else fs[idx - 1];
      var p1 := fs[idx];
      var p2 := if idx + 1 < |fs| then fs[idx + 1] else fs[|fs| - 1];
      var p3 := if idx + 2 < |fs| then fs[idx + 2] else fs[|fs| - 1];
      assert p0 == Before(x, channels, n0 + idx) && p1 == x[n0 + idx];
      assert p2 == x[Clamped(n0 + idx + 1, |x|)] && p3 == x[Clamped(n0 + idx + 2, |x|)];
      frame := HermiteFrame(p0, p1, p2, p3, Fraction(fract, rates.target));
    }
  }

  /** Where each chunk ends, counted in whole frames. */
  ghost function Ends(chunks: seq<seq<int>>, channels: nat): (ends: seq<nat>)
    requires channels > 0
    ensures |ends| == |chunks|
    ensures forall i :: 0 <= i < |ends| ==> ends[i] == |AllFrames(chunks[..i + 1], channels)|
  {
    seq(|chunks|, i requires 0 <= i < |chunks| => |AllFrames(chunks[..i + 1], channels)|)
  }

  /** The frames of the first chunks come first. */
  lemma FirstChunks(chunks: seq<seq<int>>, channels: nat, i: nat, j: nat)
    requires channels > 0 && i <= j <= |chunks|
    ensures AllFrames(chunks[..i], channels) <= AllFrames(chunks[..j], channels)
  {
    assert chunks[..j] == chunks[..i] + chunks[i..j];
    AllFramesAppend(chunks[..i], chunks[i..j], channels);
  }

  lemma EndsAreCuts(chunks: seq<seq<int>>, channels: nat)
    requires channels > 0
    ensures Cuts(Ends(chunks, channels))
    ensures StreamLength(Ends(chunks, channels)) == |AllFrames(chunks, channels)|
  {
    assert chunks[..|chunks|] == chunks;
    forall i, j | 0 <= i <= j < |chunks| ensures Ends(chunks, channels)[i] <= Ends(chunks, channels)[j] {
      FirstChunks(chunks, channels, i + 1, j + 1);
    }
  }

  /** What the first `j` chunks give, as samples. */
  ghost function HermiteSoFar(r: Rates, channels: nat, chunks: seq<seq<int>>, j: nat): seq<int>
    requires GoodRates(r) && channels > 0 && j <= |chunks|
  {
    EndsAreCuts(chunks, channels);
    Concat(HermiteInChunks(r, channels, AllFrames(chunks, channels), Ends(chunks, channels), j))
  }

  lemma {:induction false} HermiteNextChunk(r: Rates, channels: nat, chunks: seq<seq<int>>, j: nat)
    requires GoodRates(r) && channels > 0 && j < |chunks|
    ensures var x, n0 := AllFrames(chunks[..j + 1], channels), |AllFrames(chunks[..j], channels)|;
            && Count(r, n0) <= Count(r, |x|)
            && HermiteSoFar(r, channels, chunks, j + 1) ==
               HermiteSoFar(r, channels, chunks, j) + Concat(HermiteRun(r, channels, x, Count(r, n0), Count(r, |x|)))
  {
    var z, ends := AllFrames(chunks, channels), Ends(chunks, channels);
    EndsAreCuts(chunks, channels);
    EmptyCount(r);
    FirstChunks(chunks, channels, j + 1, |chunks|);
    assert chunks[..|chunks|] == chunks;
    assert z[..ends[j]] == AllFrames(chunks[..j + 1], channels);
    DueGrows(r, ends, j);
    ConcatAppend(HermiteInChunks(r, channels, z, ends, j),
                 HermiteRun(r, channels, z[..ends[j]], Due(r, ends, j), Due(r, ends, j + 1)));
  }

  /** A stream of chunks gives what `HermiteInChunks` says. If every output is final when its chunk ends, that is the
      batch output, and with boundaries between frames the batch output of the concatenated samples. */
  method HermiteStream(rates: Rates, channels: nat, chunks: seq<seq<int>>) returns (output: seq<int>)
    requires GoodRates(rates) && channels > 0
    ensures output == HermiteSoFar(rates, channels, chunks, |chunks|)
    ensures Cuts(Ends(chunks, channels))
    ensures AllFinal(rates, Ends(chunks, channels)) ==>
              output == HermiteBatch(rates, channels, AllFrames(chunks, channels))
    ensures AllFinal(rates, Ends(chunks, channels)) && OnBoundaries(Lengths(chunks), channels) ==>
              output == HermiteBatch(rates, channels, ToFrames(Concat(chunks), channels))
  {
    var resampler := new HermiteResampler(rates, channels);
    output := [];
    var i := 0;
    while i < |chunks|
      invariant 0 <= i <= |chunks|
      invariant resampler.Valid() && resampler.rates == rates && resampler.channels == channels
      invariant resampler.history == AllFrames(chunks[..i], channels)
      invariant output == HermiteSoFar(rates, channels, chunks, i)
    {
      assert chunks[..i + 1][..i] == chunks[..i];
      HermiteNextChunk(rates, channels, chunks, i);
      var piece := resampler.Process(chunks[i]);
      output := output + piece;
      i := i + 1;
    }
    EndsAreCuts(chunks, channels);
    assert chunks[..i] == chunks;
    if AllFinal(rates, Ends(chunks, channels)) {
      FinalChunks(rates, channels, AllFrames(chunks, channels), Ends(chunks, channels));
    }
    if OnBoundaries(Lengths(chunks), channels) { BoundariesKeepFrames(chunks, channels, |chunks|); }
  }

  // ---------------------------------------------------------------- windowed sinc

  /** The delay line after `n` frames: the last `taps` of them, silence before the first. */
  function Window(x: seq<Frame>, channels: nat, taps: nat, n: nat): (w: seq<Frame>)
    requires n <= |x|
    ensures |w| == taps
  {
    seq(taps, i requires 0 <= i < taps => if n + i < taps then Silence(channels) else x[n + i - taps])
  }

  lemma WindowWide(x: seq<Frame>, channels: nat, taps: nat, n: nat)
    requires n <= |x| && AllWide(x, channels)
    ensures AllWide(Window(x, channels, taps, n), channels)
  {
    var w := Window(x, channels, taps, n);
    forall i | 0 <= i < taps ensures |w[i]| == channels {
      assert w[i] == if n + i < taps then Silence(channels) else x[n + i - taps];
    }
  }

  function Dot(w: seq<Frame>, table: seq<real>, channels: nat, c: nat, n: nat): real
    requires n <= |w| && n <= |table| && c < channels && AllWide(w, channels)
    decreases n
  {
    if n == 0 then 0.0 else Dot(w, table, channels, c, n - 1) + w[n - 1][c] as real * table[n - 1]
  }

  function Fir(w: seq<Frame>, table: seq<real>, channels: nat): (f: Frame)
    requires |w| == |table| && AllWide(w, channels)
    ensures |f| == channels
  {
    seq(channels, c requires 0 <= c < channels => ToI16(Dot(w, table, channels, c, |table|)))
  }

  /** Output `k`: the filter applied to the delay line as of the frame at position k * source / target. */
  function SincOut(r: Rates, channels: nat, table: seq<real>, x: seq<Frame>, k: nat): (f: Frame)
    requires GoodRates(r) && AllWide(x, channels) && k < Count(r, |x|)
    ensures |f| == channels
  {
    PositionInside(r, |x|, k);
    var n := (k * r.source) / r.target + 1;
    WindowWide(x, channels, |table|, n);
    Fir(Window(x, channels, |table|, n), table, channels)
  }

  function SincRun(r: Rates, channels: nat, table: seq<real>, x: seq<Frame>, from: nat, to: nat): (fs: seq<Frame>)
    requires GoodRates(r) && AllWide(x, channels) && from <= to <= Count(r, |x|)
    ensures |fs| == to - from
  {
    seq(to - from, i requires 0 <= i < to - from => SincOut(r, channels, table, x, from + i))
  }

  lemma SincRunNext(r: Rates, channels: nat, table: seq<real>, x: seq<Frame>, from: nat, k: nat)
    requires GoodRates(r) && AllWide(x, channels) && from <= k < Count(r, |x|)
    ensures Concat(SincRun(r, channels, table, x, from, k + 1)) ==
            Concat(SincRun(r, channels, table, x, from, k)) + SincOut(r, channels, table, x, k)
  {
    var fs := SincRun(r, channels, table, x, from, k + 1);
    assert fs[..|fs| - 1] == SincRun(r, channels, table, x, from, k);
  }

  lemma SincOutStable(r: Rates, channels: nat, table: seq<real>, x: seq<Frame>, y: seq<Frame>, k: nat)
    requires GoodRates(r) && AllWide(x, channels) && AllWide(x + y, channels) && k < Count(r, |x|)
    ensures k < Count(r, |x + y|) && SincOut(r, channels, table, x + y, k) == SincOut(r, channels, table, x, k)
  {
    CountMonotone(r, |x|, |x + y|);
    PositionInside(r, |x|, k);
    var n := (k * r.source) / r.target + 1;
    assert Window(x + y, channels, |table|, n) == Window(x, channels, |table|, n);
  }

  lemma SincRunExtends(r: Rates, channels: nat, table: seq<real>, x: seq<Frame>, y: seq<Frame>)
    requires GoodRates(r) && AllWide(x, channels) && AllWide(x + y, channels)
    ensures Count(r, |x|) <= Count(r, |x + y|)
    ensures Concat(SincRun(r, channels, table, x + y, 0, Count(r, |x + y|))) ==
            Concat(SincRun(r, channels, table, x, 0, Count(r, |x|))) +
            Concat(SincRun(r, channels, table, x + y, Count(r, |x|), Count(r, |x + y|)))
  {
    var k0, k1 := Count(r, |x|), Count(r, |x + y|);
    CountMonotone(r, |x|, |x + y|);
    var early, late := SincRun(r, channels, table, x, 0, k0), SincRun(r, channels, table, x + y, k0, k1);
    forall k | 0 <= k < k0 ensures k < k1 && SincOut(r, channels, table, x + y, k) == early[k] {
      SincOutStable(r, channels, table, x, y, k);
    }
    assert SincRun(r, channels, table, x + y, 0, k1) == early + late;
    ConcatAppend(early, late);
  }

  class SincResampler {
    const rates: Rates
    const channels: nat
    const table: seq<real>
    var index: nat
    /** the delay lines, as one sequence of frames */
    var buffer: seq<Frame>
    ghost var history: seq<Frame>

    ghost predicate Valid()
      reads this
    {
      && GoodRates(rates) && channels > 0 && |table| > 0
      && AllWide(history, channels)
      && index == Count(rates, |history|) * rates.source - |history| * rates.target
      && buffer == Window(history, channels, |table|, |history|)
    }

    constructor (rates: Rates, channels: nat, table: seq<real>)
      requires GoodRates(rates) && channels > 0 && |table| > 0
      ensures Valid() && history == [] && this.rates == rates && this.channels == channels && this.table == table
    {
      this.rates, this.channels, this.table, index := rates, channels, table, 0;
      buffer := seq(|table|, _ => Silence(channels));
      history := [];
      new;
      EmptyCount(rates);
    }

    /** All output due at the newest frame, before the clock moves past it. */
    method PushFrame(frame: Frame) returns (output: seq<int>)
      requires Valid() && |frame| == channels
      modifies this
      ensures Valid() && history == old(history) + [frame]
      ensures Count(rates, |old(history)|) <= Count(rates, |history|)
      ensures output == Concat(SincRun(rates, channels, table, history, Count(rates, |old(history)|),
                                       Count(rates, |history|)))
    {
      ghost var n0, x := |history|, history + [frame];
      ghost var k0 := Count(rates, n0);
      ghost var k := k0;
      CountMonotone(rates, n0, |x|);
      buffer := buffer[1..] + [frame];
      assert buffer == Window(x, channels, |table|, |x|);
      WindowWide(x, channels, |table|, |x|);
      output := [];
      while index < rates.target
        invariant k0 <= k <= Count(rates, |x|)
        invariant index == k * rates.source - n0 * rates.target
        invariant output == Concat(SincRun(rates, channels, table, x, k0, k))
        decreases Count(rates, |x|) - k
        modifies this`index
      {
        DueInChunk(rates, n0, 1, k, index);
        PositionFrom(rates, n0, k, index);
        DivUnique(index, rates.target, 0, index);
        SincRunNext(rates, channels, table, x, k0, k);
        output := output + Fir(buffer, table, channels);
        index := index + rates.source;
        k := k + 1;
      }
      LastPosition(rates, n0, 1, k, index);
      index := index - rates.target;
      history := x;
    }

    method Process(input: seq<int>) returns (output: seq<int>)
      requires Valid()
      modifies this
      ensures Valid() && history == old(history) + ToFrames(input, channels)
      ensures Count(rates, |old(history)|) <= Count(rates, |history|)
      ensures Concat(SincRun(rates, channels, table, history, 0, Count(rates, |history|))) ==
              Concat(SincRun(rates, channels, table, old(history), 0, Count(rates, |old(history)|))) + output
    {
      var fs := ToFrames(input, channels);
      ghost var before := Concat(SincRun(rates, channels, table, history, 0, Count(rates, |history|)));
      output := [];
      var i := 0;
      while i < |fs|
        invariant 0 <= i <= |fs| && Valid() && history == old(history) + fs[..i]
        invariant Count(rates, |old(history)|) <= Count(rates, |history|)
        invariant Concat(SincRun(rates, channels, table, history, 0, Count(rates, |history|))) == before + output
      {
        assert fs[..i + 1] == fs[..i] + [fs[i]];
        SincRunExtends(rates, channels, table, history, [fs[i]]);
        var piece := PushFrame(fs[i]);
        assert (before + output) + piece == before + (output + piece);
        output := output + piece;
        i := i + 1;
      }
      assert fs[..i] == fs;
    }
  }

  function SincBatch(r: Rates, channels: nat, table: seq<real>, x: seq<Frame>): seq<int>
    requires GoodRates(r) && AllWide(x, channels)
  {
    Concat(SincRun(r, channels, table, x, 0, Count(r, |x|)))
  }

  /** The same for the windowed sinc. */
  method SincStream(rates: Rates, channels: nat, table: seq<real>, chunks: seq<seq<int>>) returns (output: seq<int>)
    requires GoodRates(rates) && channels > 0 && |table| > 0
    ensures output == SincBatch(rates, channels, table, AllFrames(chunks, channels))
    ensures OnBoundaries(Lengths(chunks), channels) ==>
              output == SincBatch(rates, channels, table, ToFrames(Concat(chunks), channels))
  {
    var resampler := new SincResampler(rates, channels, table);
    output := [];
    EmptyCount(rates);
    var i := 0;
    while i < |chunks|
      invariant 0 <= i <= |chunks|
      invariant resampler.Valid() && resampler.rates == rates
      invariant resampler.channels == channels && resampler.table == table
      invariant resampler.history == AllFrames(chunks[..i], channels)
      invariant output == SincBatch(rates, channels, table, resampler.history)
    {
      assert chunks[..i + 1][..i] == chunks[..i];
      var piece := resampler.Process(chunks[i]);
      output := output + piece;
      i := i + 1;
    }
    assert chunks[..i] == chunks;
    if OnBoundaries(Lengths(chunks), channels) { BoundariesKeepFrames(chunks, channels, |chunks|); }
  }
}
