/** The speed/pitch/rate filter (engine/filters/timescale.rs): cubic resampling of a stereo stream by an
    exact rational rate. */
module Timescale {
  import opened Common
  import opened Indexing

  /** Input frames per output frame, num / den. */
  datatype Rate = Rate(num: nat, den: nat)

  predicate GoodRate(r: Rate) { r.num > 0 && r.den > 0 }

  /** The input frame output frame `k` starts from: floor(k * rate). */
  function At(r: Rate, k: nat): (i: nat)
    requires GoodRate(r)
  {
    FloorNonNegative(k * r.num, r.den);
    (k * r.num) / r.den
  }

  lemma FloorNonNegative(a: int, d: int)
    requires d > 0
    ensures a >= 0 ==> a / d >= 0
  {
    if a >= 0 { DivBelow(a, d, 0); }
  }

  /** Output frame `k` can be computed from the first `frames` input frames. */
  predicate Due(r: Rate, k: nat, frames: nat)
    requires GoodRate(r)
  {
    At(r, k) + 2 < frames
  }

  lemma AtMonotone(r: Rate, j: nat, k: nat)
    requires GoodRate(r) && j <= k
    ensures At(r, j) <= At(r, k)
  {
    MulMono(j, k, r.num);
    MulMono(0, j, r.num);
    DivMonotone(j * r.num, k * r.num, r.den);
  }

  /** `emitted` counts exactly the output frames due once `frames` frames have arrived, of which the filter
      wants to see four before it starts. */
  ghost predicate Settled(r: Rate, frames: nat, emitted: nat)
    requires GoodRate(r)
  {
    if frames < 4 then emitted == 0 else forall j: nat :: j < emitted <==> Due(r, j, frames)
  }

  // ---------------------------------------------------------------- the kernel

  function Cubic(p0: real, p1: real, p2: real, p3: real, t: real): real {
    var t2 := t * t;
    var t3 := t2 * t;
    0.5 * (2.0 * p1
           + (-p0 + p2) * t
           + (2.0 * p0 - 5.0 * p1 + 4.0 * p2 - p3) * t2
           + (-p0 + 3.0 * p1 - 3.0 * p2 + p3) * t3)
  }

  function Sample(p0: int, p1: int, p2: int, p3: int, t: real): int {
    var v := Cubic(p0 as real / 32768.0, p1 as real / 32768.0, p2 as real / 32768.0, p3 as real / 32768.0, t);
    var w := (if v < -1.0 then -1.0 else if v > 1.0 then 1.0 else v) * 32767.0;
    if w >= 0.0 then w.Floor else -((-w).Floor)
  }

  /** Channel `c` of the frame between input frames i and i + 1 of the interleaved samples `x`. */
  function Between(x: seq<int>, i: nat, c: nat, t: real): int
    requires c < 2 && 2 * (i + 2) + 1 < |x|
  {
    var before := if i == 0 then 0 else i - 1;
    Sample(x[2 * before + c], x[2 * i + c], x[2 * (i + 1) + c], x[2 * (i + 2) + c], t)
  }

  /** Output frame `k` of the whole stream. */
  function FrameOut(r: Rate, x: seq<int>, k: nat): seq<int>
    requires GoodRate(r) && Due(r, k, |x| / 2)
  {
    var t := Fraction((k * r.num) % r.den, r.den);
    [Between(x, At(r, k), 0, t), Between(x, At(r, k), 1, t)]
  }

  ghost predicate AllDue(r: Rate, from: nat, until: nat, frames: nat)
    requires GoodRate(r)
  {
    forall j: nat :: from <= j < until ==> Due(r, j, frames)
  }

  ghost function FramesOut(r: Rate, x: seq<int>, from: nat, until: nat): seq<int>
    requires GoodRate(r) && from <= until && AllDue(r, from, until, |x| / 2)
    decreases until
  {
    if from == until then [] else FramesOut(r, x, from, until - 1) + FrameOut(r, x, until - 1)
  }

  lemma {:induction false} FramesOutSplit(r: Rate, x: seq<int>, from: nat, mid: nat, until: nat)
    requires GoodRate(r) && from <= mid <= until && AllDue(r, from, until, |x| / 2)
    ensures FramesOut(r, x, from, until) == FramesOut(r, x, from, mid) + FramesOut(r, x, mid, until)
    decreases until
  {
    if mid < until { FramesOutSplit(r, x, from, mid, until - 1); }
  }

  /** What was emitted stays right when more input arrives. */
  lemma {:induction false} FramesOutStable(r: Rate, x: seq<int>, y: seq<int>, from: nat, until: nat)
    requires GoodRate(r) && from <= until && AllDue(r, from, until, |x| / 2)
    ensures AllDue(r, from, until, |x + y| / 2)
    ensures FramesOut(r, x + y, from, until) == FramesOut(r, x, from, until)
    decreases until
  {
    if from < until {
      FramesOutStable(r, x, y, from, until - 1);
      assert Due(r, until - 1, |x| / 2);
    }
  }

  lemma FramesOutNext(r: Rate, x: seq<int>, from: nat, k: nat)
    requires GoodRate(r) && from <= k && AllDue(r, 0, k, |x| / 2) && Due(r, k, |x| / 2)
    ensures AllDue(r, 0, k + 1, |x| / 2)
    ensures FramesOut(r, x, from, k + 1) == FramesOut(r, x, from, k) + FrameOut(r, x, k)
  {
  }

  lemma FramesOutExtends(r: Rate, x: seq<int>, y: seq<int>, mid: nat, until: nat)
    requires GoodRate(r) && mid <= until && AllDue(r, 0, mid, |x| / 2) && AllDue(r, mid, until, |x + y| / 2)
    ensures AllDue(r, 0, until, |x + y| / 2)
    ensures FramesOut(r, x + y, 0, until) == FramesOut(r, x, 0, mid) + FramesOut(r, x + y, mid, until)
  {
    FramesOutStable(r, x, y, 0, mid);
    FramesOutSplit(r, x + y, 0, mid, until);
  }

  // ---------------------------------------------------------------- the filter

  class TimescaleFilter {
    const rate: Rate
    var inputBuffer: seq<int>
    /** numerator over rate.den, relative to the start of the buffer */
    var position: nat
    /** everything received, how many frames of it have been dropped, and the frames emitted */
    ghost var history: seq<int>
    ghost var dropped: nat
    ghost var emitted: nat

    /** The buffer and the position agree with the stream, and the left neighbour is still there. */
    ghost predicate Aligned()
      reads this
    {
      && GoodRate(rate)
      && 2 * dropped <= |history| && inputBuffer == history[2 * dropped..]
      && position == emitted * rate.num - dropped * rate.den
      && (dropped > 0 ==> position / rate.den >= 1)
    }

    ghost predicate Valid()
      reads this
    {
      && Aligned()
      && (dropped > 0 ==> |history| / 2 >= 4)
      && Settled(rate, |history| / 2, emitted)
    }

    constructor (rate: Rate)
      requires GoodRate(rate)
      ensures Valid() && history == [] && emitted == 0 && this.rate == rate
    {
      this.rate, inputBuffer, position := rate, [], 0;
      history, dropped, emitted := [], 0, 0;
    }

    /** One chunk. Emits exactly the frames that have become due, each from its right neighbours in the
        whole stream. */
    method ProcessResample(samples: seq<int>) returns (output: seq<int>)
      requires Valid()
      modifies this
      ensures Valid()
      ensures rate.num == rate.den ==> output == samples && history == old(history) && emitted == old(emitted)
      ensures rate.num != rate.den ==>
                && history == old(history) + samples
                && old(emitted) <= emitted && AllDue(rate, old(emitted), emitted, |history| / 2)
                && output == FramesOut(rate, history, old(emitted), emitted)
    {
      if rate.num == rate.den {
        return samples;
      }
      Receive(samples);
      if |inputBuffer| / 2 < 4 {
        if |history| / 2 >= 4 { StillWaiting(rate, |history| / 2, dropped, emitted, position); }
        return [];
      }
      output := Resample();
      AllSettled(rate, |history| / 2, emitted);
      DropConsumed();
    }

    method Receive(samples: seq<int>)
      requires Valid()
      modifies this`inputBuffer, this`history
      ensures Aligned() && history == old(history) + samples
      ensures AllDue(rate, 0, emitted, |history| / 2) && (dropped > 0 ==> |history| / 2 >= 4)
      ensures |history| / 2 < 4 ==> Settled(rate, |history| / 2, emitted)
    {
      ghost var f0 := |history| / 2;
      inputBuffer := inputBuffer + samples;
      history := history + samples;
      StillDue(rate, f0, |history| / 2, emitted);
    }

    method Resample() returns (output: seq<int>)
      requires Aligned() && AllDue(rate, 0, emitted, |history| / 2)
      modifies this`position, this`emitted
      ensures Aligned() && old(emitted) <= emitted
      ensures AllDue(rate, 0, emitted, |history| / 2) && !Due(rate, emitted, |history| / 2)
      ensures output == FramesOut(rate, history, old(emitted), emitted)
    {
      output := [];
      ghost var limit := DueLimit(rate, |history| / 2);
      var more := IsNextDue();
      while more
        invariant Aligned() && old(emitted) <= emitted && AllDue(rate, 0, emitted, |history| / 2)
        invariant more == Due(rate, emitted, |history| / 2)
        invariant output == FramesOut(rate, history, old(emitted), emitted)
        decreases limit - emitted
      {
        ghost var k := emitted;
        var frame := Advance();
        FramesOutNext(rate, history, old(emitted), k);
        output := output + frame;
        more := IsNextDue();
      }
    }

    /** The loop condition: the next frame has its right neighbours in the buffer. */
    method IsNextDue() returns (more: bool)
      requires Aligned()
      ensures more == Due(rate, emitted, |history| / 2)
    {
      PositionSplits(rate, dropped, emitted, position);
      more := position / rate.den + 2 < |inputBuffer| / 2;
    }

    /** One round of the loop: a frame comes out and the position moves on. */
    method Advance() returns (frame: seq<int>)
      requires Aligned() && Due(rate, emitted, |history| / 2)
      modifies this`position, this`emitted
      ensures Aligned() && emitted == old(emitted) + 1
      ensures frame == FrameOut(rate, history, old(emitted))
    {
      PositionSplits(rate, dropped, emitted, position);
      frame := EmitOne();
      Forward(rate, dropped, emitted, position);
      position := position + rate.num;
      emitted := emitted + 1;
    }

    method EmitOne() returns (frame: seq<int>)
      requires Aligned() && position / rate.den + 2 < |inputBuffer| / 2
      requires position / rate.den >= 0 && At(rate, emitted) == dropped + position / rate.den
      requires (emitted * rate.num) % rate.den == position % rate.den
      ensures Due(rate, emitted, |history| / 2) && frame == FrameOut(rate, history, emitted)
    {
      var i1 := position / rate.den;
      var t := Fraction(position % rate.den, rate.den);
      var p0 := if i1 == 0 then 0 else i1 - 1;
      var left := Sample(inputBuffer[p0 * 2], inputBuffer[i1 * 2],
                         inputBuffer[(i1 + 1) * 2], inputBuffer[(i1 + 2) * 2], t);
      var right := Sample(inputBuffer[p0 * 2 + 1], inputBuffer[i1 * 2 + 1],
                          inputBuffer[(i1 + 1) * 2 + 1], inputBuffer[(i1 + 2) * 2 + 1], t);
      frame := [left, right];
      assert left == Between(history, dropped + i1, 0, t) && right == Between(history, dropped + i1, 1, t);
    }

    /** Keep one frame before the position, for the left neighbour, and no more unless the position is past the
        end. */
    method DropConsumed()
      requires Aligned()
      modifies this`inputBuffer, this`position, this`dropped
      ensures Aligned()
      ensures position / rate.den <= 1 || position / rate.den > |inputBuffer| / 2
    {
      var consumed := position / rate.den;
      var keep := if consumed > 0 then consumed - 1 else 0;
      if keep > 0 && keep * 2 < |inputBuffer| {
        DropFrames(rate, dropped, emitted, position, keep);
        DivUnique(position - keep * rate.den, rate.den, 1, position % rate.den);
        inputBuffer := inputBuffer[keep * 2..];
        position := position - keep * rate.den;
        dropped := dropped + keep;
      }
    }
  }

  /** Only so many frames are due. */
  lemma DueLimit(r: Rate, frames: nat) returns (limit: nat)
    requires GoodRate(r)
    ensures forall k: nat :: Due(r, k, frames) ==> k < limit
  {
    limit := frames * r.den;
    forall k: nat | Due(r, k, frames) ensures k < limit {
      DivBelow(k * r.num, r.den, frames);
      MulMono(1, r.num, k);
    }
  }

  lemma PositionSplits(r: Rate, dropped: nat, k: nat, position: nat)
    requires GoodRate(r) && position == k * r.num - dropped * r.den
    ensures position / r.den >= 0 && At(r, k) == dropped + position / r.den
    ensures (k * r.num) % r.den == position % r.den
  {
    DivShift(position, r.den, dropped);
    FloorNonNegative(position, r.den);
  }

  lemma Forward(r: Rate, dropped: nat, k: nat, position: nat)
    requires GoodRate(r) && position == k * r.num - dropped * r.den
    ensures position + r.num == (k + 1) * r.num - dropped * r.den
    ensures (position + r.num) / r.den >= position / r.den
  {
    assert (k + 1) * r.num == k * r.num + r.num;
    DivMonotone(position, position + r.num, r.den);
  }

  lemma DropFrames(r: Rate, dropped: nat, k: nat, position: nat, keep: nat)
    requires GoodRate(r) && position == k * r.num - dropped * r.den && keep == position / r.den - 1
    ensures position - keep * r.den == k * r.num - (dropped + keep) * r.den
    ensures position - keep * r.den >= 0 && (position - keep * r.den) / r.den == 1
  {
    DivShift(position, r.den, 0 - keep);
    assert position + (0 - keep) * r.den == position - keep * r.den;
    assert (dropped + keep) * r.den == dropped * r.den + keep * r.den;
    DivBelow(position, r.den, keep);
  }

  lemma StillDue(r: Rate, f0: nat, f1: nat, emitted: nat)
    requires GoodRate(r) && f0 <= f1 && Settled(r, f0, emitted)
    ensures AllDue(r, 0, emitted, f1)
  {
    forall j: nat | j < emitted ensures Due(r, j, f1) { assert Due(r, j, f0); }
  }

  lemma AllSettled(r: Rate, frames: nat, emitted: nat)
    requires GoodRate(r) && frames >= 4 && AllDue(r, 0, emitted, frames) && !Due(r, emitted, frames)
    ensures Settled(r, frames, emitted)
  {
    forall j: nat | j >= emitted ensures !Due(r, j, frames) { AtMonotone(r, emitted, j); }
  }

  /** With fewer than four frames in the buffer after some were dropped, nothing is due. */
  lemma StillWaiting(r: Rate, frames: nat, dropped: nat, emitted: nat, position: nat)
    requires GoodRate(r) && frames >= 4 && position == emitted * r.num - dropped * r.den
    requires position / r.den >= 1 && frames < dropped + 4 && AllDue(r, 0, emitted, frames)
    ensures Settled(r, frames, emitted)
  {
    PositionSplits(r, dropped, emitted, position);
    AllSettled(r, frames, emitted);
  }

  // ---------------------------------------------------------------- streaming equals batch

  /** `output` is the first `emitted` frames of `x`, which are exactly the frames due. */
  ghost predicate IsOutput(rate: Rate, x: seq<int>, emitted: nat, output: seq<int>)
    requires GoodRate(rate)
  {
    && Settled(rate, |x| / 2, emitted)
    && AllDue(rate, 0, emitted, |x| / 2)
    && output == FramesOut(rate, x, 0, emitted)
  }

  /** However the input is chunked, exactly the frames due for the concatenated input come out, in order; at rate 1
      the input itself. */
  method TimescaleStream(rate: Rate, chunks: seq<seq<int>>) returns (output: seq<int>)
    requires GoodRate(rate)
    ensures rate.num == rate.den ==> output == Concat(chunks)
    ensures rate.num != rate.den ==> exists emitted :: IsOutput(rate, Concat(chunks), emitted, output)
  {
    var filter := new TimescaleFilter(rate);
    output := [];
    var i := 0;
    while i < |chunks|
      invariant 0 <= i <= |chunks| && filter.Valid() && filter.rate == rate
      invariant rate.num == rate.den ==> output == Concat(chunks[..i])
      invariant rate.num != rate.den ==>
                  filter.history == Concat(chunks[..i]) && IsOutput(rate, Concat(chunks[..i]), filter.emitted, output)
    {
      assert chunks[..i + 1][..i] == chunks[..i];
      ghost var x, k := filter.history, filter.emitted;
      var piece := filter.ProcessResample(chunks[i]);
      if rate.num != rate.den { FramesOutExtends(rate, x, chunks[i], k, filter.emitted); }
      output := output + piece;
      i := i + 1;
    }
    assert chunks[..i] == chunks;
  }
}
