/** The overwriting byte ring (engine/buffer/ring.rs) and the sound-effect layer that keeps 16-bit samples
    in it (engine/mix/layer.rs). */
module RingBuffers {
  import opened Common
  import opened Indexing

  /** The newest `n` elements. */
  function LastN<T>(s: seq<T>, n: nat): seq<T> { if |s| <= n then s else s[|s| - n..] }

  lemma LastNTwice<T>(a: seq<T>, b: seq<T>, n: nat)
    ensures LastN(LastN(a, n) + b, n) == LastN(a + b, n)
  {
  }

  /** `k % size` for the values that occur. */
  function Wrap(size: nat, k: nat): nat { if k < size then k else k - size }

  lemma WrapIsMod(size: nat, k: nat)
    requires size > 0 && k < 2 * size
    ensures k % size == Wrap(size, k)
  {
    if k < size { DivUnique(k, size, 0, k); } else { DivUnique(k, size, 1, k - size); }
  }

  /** The `len` bytes of the ring `b` from offset `r` on. */
  function Unread(b: seq<Byte>, r: nat, len: nat): (s: seq<Byte>)
    requires len <= |b| && (len > 0 ==> r < |b|)
    ensures |s| == len
  {
    seq(len, i requires 0 <= i < len => b[Wrap(|b|, r + i)])
  }

  lemma UnreadAt(b: seq<Byte>, r: nat, len: nat, i: nat)
    requires r < |b| && i < len <= |b|
    ensures Wrap(|b|, r + i) < |b| && Unread(b, r, len)[i] == b[Wrap(|b|, r + i)]
  {
  }

  lemma UnreadDrop(b: seq<Byte>, r: nat, len: nat, k: nat)
    requires r < |b| && k <= len <= |b|
    ensures Wrap(|b|, r + k) < |b| && Unread(b, Wrap(|b|, r + k), len - k) == Unread(b, r, len)[k..]
  {
    var rest := Unread(b, Wrap(|b|, r + k), len - k);
    forall i | 0 <= i < len - k ensures rest[i] == Unread(b, r, len)[k + i] {
      UnreadAt(b, r, len, k + i);
      UnreadAt(b, Wrap(|b|, r + k), len - k, i);
    }
  }

  lemma UnreadTake(b: seq<Byte>, r: nat, len: nat, k: nat)
    requires r < |b| && k <= len <= |b|
    ensures Unread(b, r, len)[..k] == if k <= |b| - r then b[r..r + k] else b[r..] + b[..k - (|b| - r)]
  {
    forall i | 0 <= i < k ensures Unread(b, r, len)[i] == b[Wrap(|b|, r + i)] {
    }
  }

  lemma UnreadAll(b: seq<Byte>)
    ensures Unread(b, 0, |b|) == b
  {
    forall i | 0 <= i < |b| ensures Unread(b, 0, |b|)[i] == b[i] {
      UnreadAt(b, 0, |b|, i);
    }
  }

  /** The ring `b` with a chunk written from offset `w` on. */
  function CopiedIn(b: seq<Byte>, w: nat, chunk: seq<Byte>): (c: seq<Byte>)
    requires w < |b|
    ensures |c| == |b|
  {
    seq(|b|, p requires 0 <= p < |b| =>
      var t := if p >= w then p - w else p + |b| - w;
      if t < |chunk| then chunk[t] else b[p])
  }

  /** Writing a chunk that is shorter than the ring, then moving the read offset past what was overwritten,
      leaves the newest bytes, in every wrap-around case. */
  lemma WriteKeepsNewest(b: seq<Byte>, r: nat, len: nat, chunk: seq<Byte>)
    requires r < |b| && len <= |b| && |chunk| < |b|
    ensures var size := |b|;
            var b' := CopiedIn(b, Wrap(size, r + len), chunk);
            var over := if len + |chunk| > size then len + |chunk| - size else 0;
            && Wrap(size, r + over) < size
            && Unread(b', Wrap(size, r + over), len + |chunk| - over) == LastN(Unread(b, r, len) + chunk, size)
  {
    var size := |b|;
    var w := Wrap(size, r + len);
    var b' := CopiedIn(b, w, chunk);
    var over := if len + |chunk| > size then len + |chunk| - size else 0;
    var all := Unread(b, r, len) + chunk;
    var kept := Unread(b', Wrap(size, r + over), len + |chunk| - over);
    forall i | 0 <= i < |kept| ensures kept[i] == all[over + i] {
      WriteKeepsByte(b, r, len, chunk, over, i);
    }
    assert kept == all[over..];
  }

  lemma WriteKeepsByte(b: seq<Byte>, r: nat, len: nat, chunk: seq<Byte>, over: nat, i: nat)
    requires r < |b| && len <= |b| && |chunk| < |b|
    requires over == (if len + |chunk| > |b| then len + |chunk| - |b| else 0) && over + i < len + |chunk|
    ensures var size := |b|;
            Wrap(size, r + over) < size &&
            CopiedIn(b, Wrap(size, r + len), chunk)[Wrap(size, Wrap(size, r + over) + i)] ==
            (Unread(b, r, len) + chunk)[over + i]
  {
    var size, m := |b|, over + i;
    var p := Wrap(size, Wrap(size, r + over) + i);
    assert p == if r + m < size then r + m else if r + m < 2 * size then r + m - size else r + m - 2 * size;
    if m < len { assert Unread(b, r, len)[m] == b[Wrap(size, r + m)]; }
  }

  class RingBuffer {
    const buf: array<Byte>
    const size: nat
    var writeOffset: nat
    var readOffset: nat
    var length: nat

    ghost predicate Valid()
      reads this
    {
      && buf.Length == size && length <= size
      && (size == 0 ==> writeOffset == 0 && readOffset == 0)
      && (size > 0 ==> readOffset < size && writeOffset == Wrap(size, readOffset + length))
    }

    /** The unread bytes, oldest first. */
    ghost function Contents(): (s: seq<Byte>)
      requires Valid()
      reads this, buf
      ensures |s| == length
    {
      Unread(buf[..], readOffset, length)
    }

    constructor (size: nat)
      ensures Valid() && fresh(buf) && this.size == size && Contents() == []
    {
      this.size := size;
      buf := new Byte[size](_ => 0);
      writeOffset, readOffset, length := 0, 0, 0;
    }

    /** Copy a chunk shorter than the ring to the write position, in two pieces if it wraps. */
    method CopyIn(chunk: seq<Byte>)
      requires buf.Length == size && 0 < size && |chunk| < size && writeOffset < size
      modifies buf
      ensures buf[..] == CopiedIn(old(buf[..]), writeOffset, chunk)
    {
      var n, atEnd := |chunk|, size - writeOffset;
      if n <= atEnd {
        forall t | 0 <= t < n {
          buf[writeOffset + t] := chunk[t];
        }
      } else {
        forall t | 0 <= t < atEnd {
          buf[writeOffset + t] := chunk[t];
        }
        forall t | 0 <= t < n - atEnd {
          buf[t] := chunk[atEnd + t];
        }
      }
    }

    /** Append, overwriting the oldest bytes if there is no room: whatever the offsets, the unread bytes are
        afterwards the newest `size` of the old ones and the chunk. */
    method Write(chunk: seq<Byte>)
      requires Valid()
      modifies this, buf
      ensures Valid() && Contents() == LastN(old(Contents()) + chunk, size)
    {
      if size == 0 || chunk == [] {
        assert old(Contents()) + [] == old(Contents());
        assert size == 0 ==> LastN(old(Contents()) + chunk, 0) == [];
        return;
      }
      if |chunk| >= size {
        Replace(chunk);
      } else {
        Append(chunk);
      }
    }

    /** A shorter chunk overwrites the oldest bytes only if there is no room for it. */
    method Append(chunk: seq<Byte>)
      requires Valid() && |chunk| < size
      modifies this, buf
      ensures Valid() && Contents() == LastN(old(Contents()) + chunk, size)
    {
      WriteKeepsNewest(buf[..], readOffset, length, chunk);
      CopyIn(chunk);
      var newLen := length + |chunk|;
      WrapIsMod(size, writeOffset + |chunk|);
      if newLen > size {
        var overwritten := newLen - size;
        WrapIsMod(size, readOffset + overwritten);
        readOffset := (readOffset + overwritten) % size;
        length := size;
      } else {
        length := newLen;
      }
      writeOffset := (writeOffset + |chunk|) % size;
    }

    /** A chunk at least as long as the ring replaces everything. */
    method Replace(chunk: seq<Byte>)
      requires Valid() && |chunk| >= size > 0
      modifies this, buf
      ensures Valid() && Contents() == LastN(old(Contents()) + chunk, size)
    {
      ghost var was := Contents();
      forall i | 0 <= i < size {
        buf[i] := chunk[|chunk| - size + i];
      }
      readOffset, writeOffset, length := 0, 0, size;
      UnreadAll(buf[..]);
      assert buf[..] == chunk[|chunk| - size..];
      assert LastN(was + chunk, size) == chunk[|chunk| - size..];
    }

    /** Up to `n` of the oldest bytes, without consuming them. */
    method Peek(n: nat) returns (out: Option<seq<Byte>>)
      requires Valid()
      ensures out == if n == 0 || length == 0 then None
                     else Some(Contents()[..if n < length then n else length])
    {
      var k := if n < length then n else length;
      if k == 0 {
        return None;
      }
      var atEnd := size - readOffset;
      var bytes := if k <= atEnd then buf[readOffset..readOffset + k] else buf[readOffset..] + buf[..k - atEnd];
      UnreadTake(buf[..], readOffset, length, k);
      out := Some(bytes);
    }

    method Read(n: nat) returns (out: Option<seq<Byte>>)
      requires Valid()
      modifies this
      ensures Valid()
      ensures out == if n == 0 || old(length) == 0 then None
                     else Some(old(Contents())[..if n < old(length) then n else old(length)])
      ensures Contents() == old(Contents())[if n < old(length) then n else old(length)..]
    {
      out := Peek(n);
      if out.Some? {
        var _ := Skip(|out.value|);
      }
    }

    method Skip(n: nat) returns (skipped: nat)
      requires Valid()
      modifies this
      ensures Valid() && skipped == if n < old(length) then n else old(length)
      ensures Contents() == old(Contents())[skipped..]
    {
      if size == 0 || n == 0 {
        return 0;
      }
      skipped := if n < length then n else length;
      WrapIsMod(size, readOffset + skipped);
      UnreadDrop(buf[..], readOffset, length, skipped);
      readOffset := (readOffset + skipped) % size;
      length := length - skipped;
    }

    method Clear()
      requires Valid()
      modifies this
      ensures Valid() && Contents() == []
    {
      writeOffset, readOffset, length := 0, 0, 0;
    }
  }

  // ---------------------------------------------------------------- 16-bit samples in the ring

  type Sample = v: int | -32768 <= v < 32768

  /** The two bytes of a sample, low byte first. */
  function SampleBytes(v: Sample): (b: seq<Byte>)
    ensures |b| == 2
  {
    var u: int := if v < 0 then v + 65536 else v;
    [u % 256, u / 256]
  }

  function BytesSample(lo: Byte, hi: Byte): (v: Sample) {
    var u: int := lo as int + 256 * hi as int;
    if u >= 32768 then u - 65536 else u
  }

  lemma SampleRoundTrip(v: Sample)
    ensures BytesSample(SampleBytes(v)[0], SampleBytes(v)[1]) == v
  {
  }

  function Encode(samples: seq<Sample>): (b: seq<Byte>)
    ensures |b| == 2 * |samples|
  {
    if samples == [] then [] else Encode(samples[..|samples| - 1]) + SampleBytes(samples[|samples| - 1])
  }

  lemma {:induction false} EncodeAt(samples: seq<Sample>, i: nat)
    requires i < |samples|
    ensures Encode(samples)[2 * i..2 * i + 2] == SampleBytes(samples[i])
  {
    var n := |samples| - 1;
    if i < n {
      EncodeAt(samples[..n], i);
      assert Encode(samples)[2 * i..2 * i + 2] == Encode(samples[..n])[2 * i..2 * i + 2];
    }
  }

  lemma {:induction false} EncodeConcat(a: seq<Sample>, b: seq<Sample>)
    ensures Encode(a + b) == Encode(a) + Encode(b)
    decreases |b|
  {
    if b == [] {
      assert a + b == a;
    } else {
      var n := |b| - 1;
      EncodeConcat(a, b[..n]);
      assert (a + b)[..|a + b| - 1] == a + b[..n];
    }
  }

  /** Dropping the oldest bytes of a ring of even size drops whole samples. */
  lemma LastNEncode(samples: seq<Sample>, n: nat)
    ensures LastN(Encode(samples), 2 * n) == Encode(LastN(samples, n))
  {
    if |samples| > n {
      var k := |samples| - n;
      EncodeConcat(samples[..k], samples[k..]);
      assert samples == samples[..k] + samples[k..];
    }
  }

  lemma EncodeSlice(samples: seq<Sample>, k: nat)
    requires k <= |samples|
    ensures Encode(samples)[..2 * k] == Encode(samples[..k]) && Encode(samples)[2 * k..] == Encode(samples[k..])
  {
    var front, back := samples[..k], samples[k..];
    assert samples == front + back;
    EncodeConcat(front, back);
    SplitConcat(Encode(front), Encode(back));
  }

  lemma SplitConcat<T>(a: seq<T>, b: seq<T>)
    ensures (a + b)[..|a|] == a && (a + b)[|a|..] == b
  {
  }

  /** `(sample as f32 * volume).round() as i32`, rounding halves away from zero. */
  function Scaled(v: int, volume: real): int {
    var x := v as real * volume;
    if x >= 0.0 then (x + 0.5).Floor else -((-x + 0.5).Floor)
  }

  /** Scaling rounds to the nearest whole sample, halves away from zero. */
  lemma ScaledIsNearest(v: int, volume: real)
    ensures var exact, x := v as real * volume, Scaled(v, volume) as real;
            && (exact >= 0.0 ==> -0.5 < x - exact <= 0.5)
            && (exact <= 0.0 ==> -0.5 <= x - exact < 0.5)
  {
  }

  lemma NextChunk(held: seq<Sample>, rx: seq<seq<Sample>>, n: nat)
    requires rx != []
    ensures LastN(LastN(held + rx[0], n) + Concat(rx[1..]), n) == LastN(held + Concat(rx), n)
  {
    var next, rest := rx[0], Concat(rx[1..]);
    ConcatCons(rx);
    LastNTwice(held + next, rest, n);
    assert (held + next) + rest == held + (next + rest);
  }

  class MixLayer {
    const ring: RingBuffer
    const volume: real
    /** the channel the sound effect arrives on */
    var rx: seq<seq<Sample>>
    var disconnected: bool
    var finished: bool
    ghost var samples: seq<Sample>

    /** The ring holds whole samples: no sample is ever torn. */
    ghost predicate Valid()
      reads this, ring, ring.buf
    {
      && ring.Valid() && ring.size % 2 == 0
      && ring.Contents() == Encode(samples)
    }

    constructor (size: nat, volume: real)
      requires size % 2 == 0
      ensures Valid() && fresh(ring) && fresh(ring.buf) && ring.size == size && samples == [] && this.volume == volume
    {
      ring := new RingBuffer(size);
      this.volume, rx, disconnected, finished, samples := volume, [], false, false, [];
    }

    /** Move everything that has arrived into the ring. What does not fit pushes out the oldest samples. */
    method Fill()
      requires Valid()
      modifies this, ring, ring.buf
      ensures Valid() && rx == []
      ensures samples == LastN(old(samples) + Concat(old(rx)), ring.size / 2)
      ensures finished == (old(finished) || disconnected) && disconnected == old(disconnected)
    {
      ghost var half := ring.size / 2;
      while rx != []
        invariant Valid() && half == ring.size / 2
        invariant LastN(samples + Concat(rx), half) == LastN(old(samples) + Concat(old(rx)), half)
        invariant finished == old(finished) && disconnected == old(disconnected)
        decreases |rx|
      {
        NextChunk(samples, rx, half);
        var pooled := rx[0];
        rx := rx[1..];
        Push(pooled);
      }
      assert samples + Concat(rx) == samples;
      if disconnected {
        finished := true;
      }
    }

    method Push(pooled: seq<Sample>)
      requires Valid()
      modifies this`samples, ring, ring.buf
      ensures Valid() && samples == LastN(old(samples) + pooled, ring.size / 2)
    {
      EncodeConcat(samples, pooled);
      LastNEncode(samples + pooled, ring.size / 2);
      var bytes := ToBytes(pooled);
      ring.Write(bytes);
      samples := LastN(samples + pooled, ring.size / 2);
    }

    method ToBytes(pooled: seq<Sample>) returns (bytes: seq<Byte>)
      ensures bytes == Encode(pooled)
    {
      bytes := [];
      var i := 0;
      while i < |pooled|
        invariant 0 <= i <= |pooled| && bytes == Encode(pooled[..i])
      {
        assert pooled[..i + 1][..i] == pooled[..i];
        bytes := bytes + SampleBytes(pooled[i]);
        i := i + 1;
      }
      assert pooled[..i] == pooled;
    }

    /** Add the next samples to the accumulator, one per slot, as many as there are. */
    method Accumulate(acc: array<int>)
      requires Valid()
      modifies this`samples, ring, acc
      ensures Valid()
      ensures var n := if acc.Length < |old(samples)| then acc.Length else |old(samples)|;
              && samples == old(samples)[n..]
              && forall j :: 0 <= j < acc.Length ==>
                   acc[j] == old(acc[j]) + (if j < n then Scaled(old(samples)[j], volume) else 0)
    {
      ghost var was := samples;
      var n := if 2 * acc.Length < ring.length then acc.Length else ring.length / 2;
      EncodeSlice(samples, n);
      var bytes := ring.Read(2 * acc.Length);
      if bytes.Some? {
        assert bytes.value == Encode(was[..n]);
        AddSamples(acc, bytes.value, was[..n]);
      }
      samples := samples[n..];
    }

    method AddSamples(acc: array<int>, bytes: seq<Byte>, ghost part: seq<Sample>)
      requires bytes == Encode(part) && |part| <= acc.Length
      modifies acc
      ensures forall j :: 0 <= j < acc.Length ==>
                acc[j] == old(acc[j]) + (if j < |part| then Scaled(part[j], volume) else 0)
    {
      var k := 0;
      while 2 * k + 1 < |bytes|
        invariant 0 <= k <= |part|
        invariant forall j :: 0 <= j < acc.Length ==>
                    acc[j] == old(acc[j]) + (if j < k then Scaled(part[j], volume) else 0)
      {
        EncodeAt(part, k);
        assert bytes[2 * k..2 * k + 2][0] == bytes[2 * k] && bytes[2 * k..2 * k + 2][1] == bytes[2 * k + 1];
        SampleRoundTrip(part[k]);
        var sample := BytesSample(bytes[2 * k], bytes[2 * k + 1]);
        acc[k] := acc[k] + Scaled(sample, volume);
        k := k + 1;
      }
    }
  }
}
