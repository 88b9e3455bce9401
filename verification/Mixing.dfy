/** Mixing tracks into an output buffer of any length (engine/mix/mixer.rs, `Mixer::mix`): leftovers of a
    frame wait in `pending` for the next call. Volume, tape and clipping curves are left out. */
module Mixing {
  import opened Common
  import opened FlowControl

  const MIXER_CHANNELS: nat := 2

  datatype PlaybackState = Playing | Paused | Stopped | Stopping | Starting

  lemma {:induction false} WholeFrames(fs: seq<Pcm>)
    requires forall i :: 0 <= i < |fs| ==> |fs[i]| == FRAME_SIZE_SAMPLES
    ensures |Concat(fs)| % 2 == 0
  {
    if fs != [] { WholeFrames(fs[..|fs| - 1]); }
  }

  /** What the tape effect of a track reports at the end of a call: a ramp still under way, a ramp just completed. */
  datatype Tape = Tape(active: bool, rampCompleted: bool)

  predicate Silent(s: PlaybackState) { s.Paused? || s.Stopped? }

  /** The state of a track at the end of a call that found it in state `s`; `done` if it has played everything. */
  function EndState(s: PlaybackState, done: bool, tape: Tape): PlaybackState {
    if tape.rampCompleted && s.Stopping? then Paused
    else if tape.rampCompleted && s.Starting? then Playing
    else if done && !tape.active then Stopped
    else s
  }

  /** A track stops by finishing only while its tape rests, a completed ramp ends the state it belongs to and no other,
      and otherwise a state lasts. */
  lemma EndStates(s: PlaybackState, done: bool, tape: Tape)
    requires !Silent(s)
    ensures var e := EndState(s, done, tape);
            && (e == Stopped <==> done && !tape.active && !(tape.rampCompleted && s != Playing))
            && (e == Paused <==> s == Stopping && tape.rampCompleted)
            && (e == Playing <==> (s == Starting && tape.rampCompleted) || (s == Playing && (!done || tape.active)))
            && (e == Stopping || e == Starting ==> e == s)
  {
  }

  /** What a `mix` call can change about a track. */
  datatype TrackView = TrackView(
    state: PlaybackState,
    position: nat,
    isBuffering: bool,
    finished: bool,
    pending: Pcm,
    pendingPos: nat,
    mixed: Pcm,
    popped: seq<Pcm>)

  function SampleAt(pcm: Pcm, j: nat): int { if j < |pcm| then pcm[j] else 0 }

  class MixerTrack {
    const flow: FlowController
    var pending: Pcm
    var pendingPos: nat
    var state: PlaybackState
    var position: nat
    var isBuffering: bool
    var finished: bool
    var tape: Tape
    /** every sample this track has added to an output buffer, in order */
    ghost var mixed: Pcm

    /** Samples are neither lost nor repeated: what has been mixed and what is pending are exactly the popped
        frames, end to end. A track is finished only when its decoder is gone and every frame has been popped. */
    ghost predicate Valid()
      reads this, flow
    {
      && flow.Valid()
      && pendingPos <= |pending|
      && (pendingPos == |pending| ==> pending == [])
      && mixed + pending[pendingPos..] == Concat(flow.popped)
      && (forall i :: 0 <= i < |flow.popped| ==> |flow.popped[i]| == FRAME_SIZE_SAMPLES)
      && (finished ==> flow.disconnected && flow.popped == flow.due)
    }

    /** Nothing is pending and the flow has nothing to give. */
    ghost predicate Exhausted()
      reads this, flow
    {
      pending == [] && flow.popped == flow.due
    }

    ghost function View(): TrackView
      reads this, flow
    {
      TrackView(state, position, isBuffering, finished, pending, pendingPos, mixed, flow.popped)
    }

    lemma NothingPending()
      requires Valid() && pending == []
      ensures pendingPos == 0 && mixed == Concat(flow.popped)
    {
      assert mixed + pending[pendingPos..] == mixed;
    }

    lemma MixedIsDue()
      requires Valid()
      ensures |mixed| <= |Concat(flow.due)|
    {
      flow.PoppedIsDue();
      var n := |flow.popped|;
      assert flow.due == flow.popped + flow.due[n..];
      ConcatAppend(flow.popped, flow.due[n..]);
    }

    constructor (flow: FlowController)
      requires flow.Valid() && flow.popped == []
      ensures Valid() && this.flow == flow && mixed == [] && position == 0 && state == Playing
      ensures tape == Tape(false, false)
    {
      this.flow, pending, pendingPos := flow, [], 0;
      state, position, isBuffering, finished, mixed := Playing, 0, false, false, [];
      tape := Tape(false, false);
    }

    /** Step 1: drain what the previous call left over. */
    method DrainPending(buf: array<int>) returns (filled: nat)
      requires Valid()
      modifies this`pending, this`pendingPos, this`mixed, buf
      ensures Valid() && filled <= buf.Length
      ensures Added(buf, old(buf[..]), old(mixed), mixed, filled)
      ensures filled < buf.Length ==> pending == []
    {
      filled := 0;
      ghost var was, done := buf[..], mixed;
      if pendingPos < |pending| {
        var left := |pending| - pendingPos;
        filled := if buf.Length < left then buf.Length else left;
        var part := pending[pendingPos..pendingPos + filled];
        AddInto(buf, 0, part);
        assert pending[pendingPos..] == part + pending[pendingPos + filled..];
        mixed := mixed + part;
        pendingPos := pendingPos + filled;
        if pendingPos >= |pending| {
          assert pending[pendingPos..] == [];
          pending, pendingPos := [], 0;
        }
      }
      assert mixed == done + mixed[|done|..];
    }

    /** Step 2: pull frames until the buffer is full or the flow has nothing to give. */
    method PullFrames(buf: array<int>, start: nat) returns (filled: nat)
      requires Valid() && start <= buf.Length && (start < buf.Length ==> pending == [])
      modifies this`pending, this`pendingPos, this`mixed, this`finished, buf
      modifies flow`pendingPcm, flow`decoderDone, flow`latestOpus, flow`queue, flow`popped
      ensures Valid() && start <= filled <= buf.Length && old(flow.popped) <= flow.popped
      ensures AddedFrom(buf, old(buf[..]), old(mixed), mixed, start, filled)
      ensures filled < buf.Length ==> Exhausted() && (finished <==> flow.disconnected)
    {
      filled := start;
      ghost var was, before := buf[..], mixed;
      while filled < buf.Length && !finished
        invariant Valid() && start <= filled <= buf.Length && old(flow.popped) <= flow.popped
        invariant filled < buf.Length ==> pending == []
        invariant AddedFrom(buf, was, before, mixed, start, filled)
        decreases buf.Length - filled, !finished
      {
        ghost var mid, buf1, f1 := mixed, buf[..], filled;
        var more;
        filled, more := PullOne(buf, filled);
        AddedTwice(buf, was, buf1, before, mid, mixed, start, f1, filled);
        if !more {
          break;
        }
      }
    }

    /** One round of the pull loop; `more` is false when the flow has nothing yet. */
    method PullOne(buf: array<int>, at: nat) returns (filled: nat, more: bool)
      requires Valid() && at < buf.Length && pending == [] && !finished
      modifies this`pending, this`pendingPos, this`mixed, this`finished, buf
      modifies flow`pendingPcm, flow`decoderDone, flow`latestOpus, flow`queue, flow`popped
      ensures Valid() && at <= filled <= buf.Length && old(flow.popped) <= flow.popped
      ensures AddedFrom(buf, old(buf[..]), old(mixed), mixed, at, filled)
      ensures filled < buf.Length ==> pending == []
      ensures more ==> filled > at || finished
      ensures !more ==> filled == at && !finished && flow.popped == flow.due && !flow.disconnected
    {
      var r := Pop();
      filled, more := at, !r.NotYet?;
      assert mixed + [] == mixed;
      if r.Frame? {
        filled := TakeFrame(buf, at, r.pcm);
      }
    }

    /** Ask the flow for a frame, and note its end. */
    method Pop() returns (r: Popped)
      requires Valid() && pending == [] && !finished
      modifies this`finished, flow`pendingPcm, flow`decoderDone, flow`latestOpus, flow`queue, flow`popped
      ensures old(flow.popped) <= flow.popped && finished == r.Finished?
      ensures !r.Frame? ==> Valid() && flow.popped == flow.due
      ensures r.NotYet? ==> !flow.disconnected
      ensures r.Frame? ==> pendingPos == 0 && Fresh(r.pcm)
    {
      NothingPending();
      ghost var popped := flow.popped;
      r := flow.TryPopFrame();
      if r.Frame? {
        ConcatSnoc(popped, r.pcm);
      } else {
        assert popped + [] == popped;
        finished := r.Finished?;
      }
    }

    /** `frame` has been popped and not yet mixed. */
    ghost predicate Fresh(frame: Pcm)
      reads this, flow
    {
      && flow.Valid() && |frame| == FRAME_SIZE_SAMPLES && mixed + frame == Concat(flow.popped)
      && forall i :: 0 <= i < |flow.popped| ==> |flow.popped[i]| == FRAME_SIZE_SAMPLES
    }

    /** Mix as much of a fresh frame as fits and keep the rest. */
    method TakeFrame(buf: array<int>, at: nat, frame: Pcm) returns (filled: nat)
      requires at < buf.Length && pending == [] && pendingPos == 0 && Fresh(frame) && !finished
      modifies this`pending, this`pendingPos, this`mixed, buf
      ensures Valid() && at < filled <= buf.Length
      ensures AddedFrom(buf, old(buf[..]), old(mixed), mixed, at, filled)
      ensures filled < buf.Length ==> pending == []
    {
      var room := buf.Length - at;
      var n := if |frame| < room then |frame| else room;
      AddInto(buf, at, frame[..n]);
      if n < |frame| {
        pending := pending + frame[n..];
        pendingPos := 0;
      }
      assert frame == frame[..n] + frame[n..];
      mixed := mixed + frame[..n];
      filled := at + n;
    }

    /** One track's share of a `mix` call: `filled` samples, the next ones of its stream. It fills the buffer unless
        the track is exhausted, and stops by finishing only when everything has been mixed. */
    method MixInto(buf: array<int>) returns (filled: nat)
      requires Valid()
      modifies this`pending, this`pendingPos, this`mixed, this`finished, buf
      modifies this`position, this`isBuffering, this`state
      modifies flow`pendingPcm, flow`decoderDone, flow`latestOpus, flow`queue, flow`popped
      ensures Valid() && filled <= buf.Length && old(flow.popped) <= flow.popped
      ensures Added(buf, old(buf[..]), old(mixed), mixed, filled)
      ensures position == old(position) + filled / MIXER_CHANNELS
      ensures isBuffering == (filled == 0 && (!finished || old(isBuffering)))
      ensures filled < buf.Length ==> Exhausted() && (finished <==> flow.disconnected)
      ensures state == EndState(old(state), finished && pending == [], tape)
      // with even buffers the position is exactly half the samples mixed
      ensures buf.Length % 2 == 0 && |old(mixed)| == 2 * old(position) ==> |mixed| == 2 * position
    {
      ghost var was, done := buf[..], mixed;
      var drained := DrainPending(buf);
      ghost var between, mid := mixed, buf[..];
      filled := PullFrames(buf, drained);
      AddedThen(buf, was, mid, done, between, mixed, drained, filled);
      if filled < buf.Length { WholeFrames(flow.popped); }
      Report(filled);
    }

    /** The end of the call: position, buffering flag and state. */
    method Report(filled: nat)
      modifies this`position, this`isBuffering, this`state
      ensures position == old(position) + filled / MIXER_CHANNELS
      ensures isBuffering == (filled == 0 && (!finished || old(isBuffering)))
      ensures state == EndState(old(state), finished && pending == [], tape)
    {
      if filled > 0 {
        position := position + filled / MIXER_CHANNELS;
        isBuffering := false;
      } else if !finished {
        isBuffering := true;
      }
      var found := state;
      if finished && pending == [] && !tape.active {
        state := Stopped;
      }
      if tape.rampCompleted {
        state := if found.Stopping? then Paused else if found.Starting? then Playing else state;
      }
    }
  }

  /** `buf` is `was` plus the `filled` samples by which `after` extends `before`. */
  ghost predicate Added(buf: array<int>, was: seq<int>, before: Pcm, after: Pcm, filled: nat)
    reads buf
  {
    && |was| == buf.Length && before <= after && |after| == |before| + filled
    && forall j :: 0 <= j < buf.Length ==> buf[j] == was[j] + SampleAt(after[|before|..], j)
  }

  /** `buf` is `was` plus, from index `start` on, the samples by which `after` extends `before`. */
  ghost predicate AddedFrom(buf: array<int>, was: seq<int>, before: Pcm, after: Pcm, start: nat, filled: nat)
    reads buf
  {
    && |was| == buf.Length && start <= filled <= buf.Length && before <= after && |after| == |before| + filled - start
    && forall j :: 0 <= j < buf.Length ==>
         buf[j] == was[j] + (if start <= j < filled then after[|before| + j - start] else 0)
  }

  lemma AddedTwice(buf: array<int>, was: seq<int>, mid: seq<int>, a: Pcm, b: Pcm, c: Pcm, start: nat, f1: nat, f2: nat)
    requires |was| == |mid| == buf.Length && start <= f1 && a <= b && |b| == |a| + f1 - start
    requires forall j :: 0 <= j < |mid| ==> mid[j] == was[j] + (if start <= j < f1 then b[|a| + j - start] else 0)
    requires AddedFrom(buf, mid, b, c, f1, f2)
    ensures AddedFrom(buf, was, a, c, start, f2)
  {
  }

  /** Drained samples, then pulled ones. */
  lemma AddedThen(buf: array<int>, was: seq<int>, mid: seq<int>, a: Pcm, b: Pcm, c: Pcm, drained: nat, filled: nat)
    requires |was| == |mid| == buf.Length && a <= b && |b| == |a| + drained
    requires forall j :: 0 <= j < |mid| ==> mid[j] == was[j] + SampleAt(b[|a|..], j)
    requires AddedFrom(buf, mid, b, c, drained, filled)
    ensures Added(buf, was, a, c, filled)
  {
    forall j | 0 <= j < buf.Length ensures buf[j] == was[j] + SampleAt(c[|a|..], j) {
      if j < drained { assert c[|a|..][j] == b[|a| + j]; }
    }
  }

  method AddInto(buf: array<int>, at: nat, part: Pcm)
    requires at + |part| <= buf.Length
    modifies buf
    ensures forall j :: 0 <= j < buf.Length ==>
              buf[j] == old(buf[j]) + (if at <= j < at + |part| then part[j - at] else 0)
  {
    var k := 0;
    while k < |part|
      invariant 0 <= k <= |part|
      invariant forall j :: 0 <= j < buf.Length ==>
                  buf[j] == old(buf[j]) + (if at <= j < at + k then part[j - at] else 0)
    {
      buf[at + k] := buf[at + k] + part[k];
      k := k + 1;
    }
  }

  function SumAt(parts: seq<Pcm>, j: nat): int {
    if parts == [] then 0 else SumAt(parts[..|parts| - 1], j) + SampleAt(parts[|parts| - 1], j)
  }

  ghost predicate Distinct(tracks: seq<MixerTrack>) {
    forall i, k :: 0 <= i < k < |tracks| ==> tracks[i] != tracks[k] && tracks[i].flow != tracks[k].flow
  }

  ghost function Members(tracks: seq<MixerTrack>): set<MixerTrack> { set t | t in tracks }

  ghost function Flows(tracks: seq<MixerTrack>): set<FlowController> { set t | t in tracks :: t.flow }

  ghost predicate AllValid(tracks: seq<MixerTrack>)
    reads set t | t in tracks, set t | t in tracks :: t.flow
  {
    forall i :: 0 <= i < |tracks| ==> tracks[i].Valid()
  }

  /** The tracks that are not stopped. */
  function Unstopped(tracks: seq<MixerTrack>): seq<MixerTrack>
    reads set t | t in tracks
  {
    if tracks == [] then []
    else
      var t := tracks[|tracks| - 1];
      Unstopped(tracks[..|tracks| - 1]) + (if t.state != Stopped then [t] else [])
  }

  ghost function Views(tracks: seq<MixerTrack>): seq<TrackView>
    reads set t | t in tracks, set t | t in tracks :: t.flow
  {
    seq(|tracks|, i requires 0 <= i < |tracks| reads tracks, set t | t in tracks :: t.flow => tracks[i].View())
  }

  /** `part` is what a call for `outLen` samples owes a track that it found as `before`: nothing if that is silent, and
      otherwise the next samples of its stream, a full share unless the track is exhausted. A track that is stopped has
      mixed everything. */
  ghost predicate Played(t: MixerTrack, before: TrackView, part: Pcm, outLen: nat)
    reads t, t.flow
  {
    if Silent(before.state) then part == [] && t.View() == before
    else
      && t.mixed == before.mixed + part && before.popped <= t.flow.popped
      && |part| <= outLen && (|part| < outLen ==> t.Exhausted() && (t.finished <==> t.flow.disconnected))
      && t.position == before.position + |part| / MIXER_CHANNELS
      && t.isBuffering == (part == [] && (!t.finished || before.isBuffering))
      && t.state == EndState(before.state, t.finished && t.pending == [], t.tape)
      && (t.state.Stopped? ==> t.flow.disconnected && t.mixed == Concat(t.flow.due))
  }

  /** A track that a call stops has played everything its decoder sent. */
  lemma StoppedHasPlayedAll(t: MixerTrack, before: TrackView, part: Pcm, outLen: nat)
    requires t.Valid() && Played(t, before, part, outLen) && !before.state.Stopped? && t.state.Stopped?
    ensures t.flow.disconnected && t.mixed == Concat(Frames(t.flow.arrived, []))
  {
    t.flow.DueIsFrames();
  }

  ghost predicate AllPlayed(tracks: seq<MixerTrack>, before: seq<TrackView>, parts: seq<Pcm>, outLen: nat)
    requires |before| == |parts| == |tracks|
    reads set t | t in tracks, set t | t in tracks :: t.flow
  {
    forall i :: 0 <= i < |tracks| ==> Played(tracks[i], before[i], parts[i], outLen)
  }

  lemma {:induction false} UnstoppedDistinct(tracks: seq<MixerTrack>)
    requires Distinct(tracks)
    ensures Distinct(Unstopped(tracks))
    ensures forall t :: t in Unstopped(tracks) ==> t in tracks && t.state != Stopped
  {
    if tracks != [] {
      var front, last := tracks[..|tracks| - 1], tracks[|tracks| - 1];
      UnstoppedDistinct(front);
      forall t | t in Unstopped(front) ensures t != last && t.flow != last.flow {
        var j :| 0 <= j < |front| && front[j] == t;
        assert tracks[j] == t;
      }
    }
  }

  lemma UnstoppedValid(tracks: seq<MixerTrack>)
    requires Distinct(tracks) && AllValid(tracks)
    ensures AllValid(Unstopped(tracks))
  {
    UnstoppedDistinct(tracks);
    forall i | 0 <= i < |Unstopped(tracks)| ensures Unstopped(tracks)[i].Valid() {
      assert Unstopped(tracks)[i] in tracks;
    }
  }

  /** The result of a call: every track, found as in `views`, contributed its part of `parts`, and the buffer holds the
      sums. */
  ghost predicate IsMix(tracks: seq<MixerTrack>, views: seq<TrackView>, parts: seq<Pcm>, buf: array<int>,
                        hasAudio: bool)
    reads set t | t in tracks, set t | t in tracks :: t.flow, buf
  {
    && |views| == |parts| == |tracks| && AllValid(tracks)
    && AllPlayed(tracks, views, parts, buf.Length)
    && (forall j :: 0 <= j < buf.Length ==> buf[j] == SumAt(parts, j))
    && (hasAudio <==> Audible(parts))
  }

  /** All tracks but the last, and the last. */
  lemma LastPlayed(ts: seq<MixerTrack>, views: seq<TrackView>, parts: seq<Pcm>, part: Pcm, outLen: nat)
    requires ts != [] && |views| == |ts| == |parts| + 1
    requires var n := |parts|;
             && AllValid(ts[..n]) && ts[n].Valid()
             && AllPlayed(ts[..n], views[..n], parts, outLen) && Played(ts[n], views[n], part, outLen)
    ensures AllValid(ts) && AllPlayed(ts, views, parts + [part], outLen)
  {
    var n := |parts|;
    forall i | 0 <= i < |ts| ensures ts[i].Valid() && Played(ts[i], views[i], (parts + [part])[i], outLen) {
      if i < n { assert ts[..n][i] == ts[i]; }
    }
  }

  class Mixer {
    var tracks: seq<MixerTrack>

    constructor (tracks: seq<MixerTrack>)
      ensures this.tracks == tracks
    {
      this.tracks := tracks;
    }

    /** Stopped tracks are dropped. Every sample of the output is the sum of what each other track contributes at
        that place. Each contributes the next samples of its own stream: none if it is paused, and otherwise as many
        as asked for unless it is exhausted. */
    method Mix(outLen: nat) returns (buf: array<int>, hasAudio: bool, ghost parts: seq<Pcm>)
      requires Distinct(tracks) && AllValid(tracks)
      modifies this
      modifies Members(tracks)`pending, Members(tracks)`pendingPos, Members(tracks)`mixed, Members(tracks)`finished
      modifies Members(tracks)`position, Members(tracks)`isBuffering, Members(tracks)`state
      modifies Flows(tracks)`pendingPcm, Flows(tracks)`decoderDone, Flows(tracks)`latestOpus
      modifies Flows(tracks)`queue, Flows(tracks)`popped
      ensures tracks == old(Unstopped(tracks))
      ensures fresh(buf) && buf.Length == outLen
      ensures IsMix(tracks, old(Views(Unstopped(tracks))), parts, buf, hasAudio)
    {
      var kept := KeepUnstopped();
      buf, hasAudio, parts := Retain(kept, outLen);
    }

    /** The list of tracks becomes `kept`, and these are mixed. */
    method Retain(kept: seq<MixerTrack>, outLen: nat) returns (buf: array<int>, hasAudio: bool, ghost parts: seq<Pcm>)
      requires Distinct(kept) && AllValid(kept)
      modifies this
      modifies Members(kept)`pending, Members(kept)`pendingPos, Members(kept)`mixed, Members(kept)`finished
      modifies Members(kept)`position, Members(kept)`isBuffering, Members(kept)`state
      modifies Flows(kept)`pendingPcm, Flows(kept)`decoderDone, Flows(kept)`latestOpus
      modifies Flows(kept)`queue, Flows(kept)`popped
      ensures tracks == kept && fresh(buf) && buf.Length == outLen
      ensures IsMix(kept, old(Views(kept)), parts, buf, hasAudio)
    {
      buf, hasAudio, parts := MixKept(kept, outLen);
      tracks := kept;
    }

    method MixKept(kept: seq<MixerTrack>, outLen: nat) returns (buf: array<int>, hasAudio: bool, ghost parts: seq<Pcm>)
      requires Distinct(kept) && AllValid(kept)
      modifies Members(kept)`pending, Members(kept)`pendingPos, Members(kept)`mixed, Members(kept)`finished
      modifies Members(kept)`position, Members(kept)`isBuffering, Members(kept)`state
      modifies Flows(kept)`pendingPcm, Flows(kept)`decoderDone, Flows(kept)`latestOpus
      modifies Flows(kept)`queue, Flows(kept)`popped
      ensures fresh(buf) && buf.Length == outLen
      ensures IsMix(kept, old(Views(kept)), parts, buf, hasAudio)
    {
      buf := new int[outLen](_ => 0);
      hasAudio, parts := MixTracks(kept, buf);
    }

    method KeepUnstopped() returns (kept: seq<MixerTrack>)
      requires Distinct(tracks) && AllValid(tracks)
      ensures kept == old(Unstopped(tracks)) && Distinct(kept) && AllValid(kept)
      ensures Views(kept) == old(Views(Unstopped(tracks)))
      ensures Members(kept) <= Members(tracks) && Flows(kept) <= Flows(tracks)
    {
      UnstoppedDistinct(tracks);
      UnstoppedValid(tracks);
      kept := [];
      var i := 0;
      while i < |tracks|
        invariant 0 <= i <= |tracks| && kept == Unstopped(tracks[..i])
      {
        assert tracks[..i + 1][..i] == tracks[..i];
        if tracks[i].state != Stopped {
          kept := kept + [tracks[i]];
        }
        i := i + 1;
      }
      assert tracks[..i] == tracks;
      assert forall t :: t in kept ==> t.flow in Flows(tracks);
    }

    /** The loop over the tracks, first track first. */
    method MixTracks(ts: seq<MixerTrack>, buf: array<int>) returns (hasAudio: bool, ghost parts: seq<Pcm>)
      requires Distinct(ts) && AllValid(ts)
      modifies buf
      modifies Members(ts)`pending, Members(ts)`pendingPos, Members(ts)`mixed, Members(ts)`finished
      modifies Members(ts)`position, Members(ts)`isBuffering, Members(ts)`state
      modifies Flows(ts)`pendingPcm, Flows(ts)`decoderDone, Flows(ts)`latestOpus
      modifies Flows(ts)`queue, Flows(ts)`popped
      ensures |parts| == |ts| && AllValid(ts)
      ensures AllPlayed(ts, old(Views(ts)), parts, buf.Length)
      ensures forall j :: 0 <= j < buf.Length ==> buf[j] == old(buf[j]) + SumAt(parts, j)
      ensures hasAudio <==> Audible(parts)
      decreases |ts|
    {
      if ts == [] {
        return false, [];
      }
      var n := |ts| - 1;
      var front, last := ts[..n], ts[n];
      ghost var views := Views(ts);
      assert Views(front) == views[..n];
      hasAudio, parts := MixTracks(front, buf);
      assert last.Valid() && last.View() == views[n];
      ghost var part;
      var audible;
      audible, part := MixOne(last, buf);
      assert AllValid(front) && AllPlayed(front, views[..n], parts, buf.Length);
      LastPlayed(ts, views, parts, part, buf.Length);
      PartsNext(parts, part);
      parts := parts + [part];
      hasAudio := hasAudio || audible;
    }

    method MixOne(t: MixerTrack, buf: array<int>) returns (audible: bool, ghost part: Pcm)
      requires t.Valid()
      modifies buf, t`pending, t`pendingPos, t`mixed, t`finished, t`position, t`isBuffering, t`state
      modifies t.flow`pendingPcm, t.flow`decoderDone, t.flow`latestOpus, t.flow`queue, t.flow`popped
      ensures t.Valid() && Played(t, old(t.View()), part, buf.Length)
      ensures audible <==> part != []
      ensures forall j :: 0 <= j < buf.Length ==> buf[j] == old(buf[j]) + SampleAt(part, j)
    {
      audible, part := false, [];
      if !Silent(t.state) {
        ghost var before := t.mixed;
        var filled := t.MixInto(buf);
        part := t.mixed[|before|..];
        audible := filled > 0;
        if t.finished && t.pending == [] { t.NothingPending(); }
      }
    }
  }

  ghost predicate Audible(parts: seq<Pcm>) { exists i :: 0 <= i < |parts| && parts[i] != [] }

  lemma PartsNext(parts: seq<Pcm>, part: Pcm)
    ensures forall j: nat :: SumAt(parts + [part], j) == SumAt(parts, j) + SampleAt(part, j)
    ensures Audible(parts + [part]) <==> Audible(parts) || part != []
  {
    var all := parts + [part];
    assert all[..|parts|] == parts && all[|parts|] == part;
    assert forall i :: 0 <= i < |parts| ==> all[i] == parts[i];
  }

  // ---------------------------------------------------------------- whole runs of a track

  /** What happens to a track: its decoder sends a message, or the mixer asks for samples. */
  datatype TrackEvent = Arrival(m: Message) | Call(outLen: nat)

  function Arrivals(events: seq<TrackEvent>): seq<Message> {
    if events == [] then []
    else
      var last := events[|events| - 1];
      Arrivals(events[..|events| - 1]) + (if last.Arrival? then [last.m] else [])
  }

  predicate EvenCalls(events: seq<TrackEvent>) {
    forall i :: 0 <= i < |events| && events[i].Call? ==> events[i].outLen % 2 == 0
  }

  /** One call on a buffer of its own. */
  method Play(track: MixerTrack, outLen: nat) returns (out: Pcm)
    requires track.Valid()
    modifies track`pending, track`pendingPos, track`mixed, track`finished
    modifies track`position, track`isBuffering, track`state
    modifies track.flow`pendingPcm, track.flow`decoderDone, track.flow`latestOpus, track.flow`queue, track.flow`popped
    ensures track.Valid() && track.mixed == old(track.mixed) + out
    ensures |out| <= outLen && (|out| < outLen ==> track.Exhausted() && (track.finished <==> track.flow.disconnected))
    ensures track.state == EndState(old(track.state), track.finished && track.pending == [], track.tape)
    ensures outLen % 2 == 0 && |old(track.mixed)| == 2 * old(track.position) ==> |track.mixed| == 2 * track.position
  {
    var buf := new int[outLen](_ => 0);
    ghost var before := track.mixed;
    var filled := track.MixInto(buf);
    out := buf[..filled];
    assert out == track.mixed[|before|..];
  }

  /** Whenever messages arrive and whatever lengths are asked for, the flow has received exactly what was sent, and what
      comes out are the samples mixed so far, at a position of half their number if all lengths are even. */
  method RunTrack(events: seq<TrackEvent>) returns (track: MixerTrack, played: Pcm)
    ensures fresh(track) && fresh(track.flow) && track.Valid()
    ensures track.flow.arrived == Arrivals(events) && !track.flow.disconnected && track.mixed == played
    ensures track.state == Playing && track.tape == Tape(false, false)
    ensures EvenCalls(events) ==> |played| == 2 * track.position
  {
    var flow := new FlowController();
    track := new MixerTrack(flow);
    played := [];
    var i := 0;
    while i < |events|
      invariant 0 <= i <= |events| && fresh(track) && fresh(track.flow) && track.Valid()
      invariant track.flow.arrived == Arrivals(events[..i]) && !track.flow.disconnected && track.mixed == played
      invariant track.state == Playing && track.tape == Tape(false, false)
      invariant EvenCalls(events) ==> |played| == 2 * track.position
    {
      assert events[..i + 1][..i] == events[..i];
      match events[i] {
        case Arrival(m) =>
          track.flow.Arrive(m);
        case Call(outLen) =>
          var out := Play(track, outLen);
          played := played + out;
      }
      i := i + 1;
    }
    assert events[..i] == events;
  }

  /** A track that is asked until it stops has played exactly the whole frames of what its decoder sent, whenever that
      arrived and whatever lengths were asked for. */
  method PlayToEnd(events: seq<TrackEvent>, outLen: nat) returns (played: Pcm, position: nat)
    requires outLen > 0
    ensures played == Concat(Frames(Arrivals(events), []))
    ensures EvenCalls(events) && outLen % 2 == 0 ==> |played| == 2 * position
  {
    var track;
    track, played := RunTrack(events);
    track.flow.Hangup();
    while track.state != Stopped
      invariant track.Valid() && track.flow.arrived == Arrivals(events) && track.flow.disconnected
      invariant track.mixed == played && track.tape == Tape(false, false)
      invariant track.state == Playing || (track.state == Stopped && track.finished && track.pending == [])
      invariant EvenCalls(events) && outLen % 2 == 0 ==> |played| == 2 * track.position
      decreases |Concat(track.flow.due)| - |played|, track.state == Playing
    {
      var out := Play(track, outLen);
      track.MixedIsDue();
      played := played + out;
    }
    track.NothingPending();
    track.flow.DueIsFrames();
    position := track.position;
  }
}
