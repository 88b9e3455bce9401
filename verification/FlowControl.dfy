/** Cutting decoded PCM into fixed frames, pushed by `run` or pulled by `try_pop_frame`
    (engine/flow/controller.rs). Effects are applied frame by frame after the cut and are left abstract. */
module FlowControl {
  import opened Common

  const FRAME_SIZE_SAMPLES: nat := 1920

  type Pcm = seq<int>

  /** A chunk from the decoder. An empty one marks a seek. */
  datatype Message = Samples(pcm: Pcm) | Opus(packet: seq<int>)

  // ---------------------------------------------------------------- the frame stream

  /** The frames that `pending` samples followed by `msgs` still give. */
  function Frames(msgs: seq<Message>, pending: Pcm): seq<Pcm>
    decreases |msgs|, |pending|
  {
    if |pending| >= FRAME_SIZE_SAMPLES then
      [pending[..FRAME_SIZE_SAMPLES]] + Frames(msgs, pending[FRAME_SIZE_SAMPLES..])
    else if msgs == [] then []
    else match msgs[0]
      case Opus(_) => Frames(msgs[1..], pending)
      case Samples(pcm) => Frames(msgs[1..], if pcm == [] then [] else pending + pcm)
  }

  /** The samples up to the first seek. */
  function Segment(msgs: seq<Message>): Pcm {
    if msgs == [] || msgs[0] == Samples([]) then []
    else (if msgs[0].Samples? then msgs[0].pcm else []) + Segment(msgs[1..])
  }

  /** What follows the first seek, if there is one. */
  function AfterSeek(msgs: seq<Message>): (rest: seq<Message>)
    ensures |rest| <= |msgs|
    ensures HasSeek(msgs) ==> |rest| < |msgs|
  {
    if msgs == [] then [] else if msgs[0] == Samples([]) then msgs[1..] else AfterSeek(msgs[1..])
  }

  predicate HasSeek(msgs: seq<Message>) { exists i :: 0 <= i < |msgs| && msgs[i] == Samples([]) }

  /** All whole frames of a segment: floor(L / 1920) of them, frame i being samples [1920 i, 1920 (i + 1)). */
  function Chop(pcm: Pcm): (fs: seq<Pcm>)
    ensures |fs| == |pcm| / FRAME_SIZE_SAMPLES
    ensures forall i :: 0 <= i < |fs| ==> fs[i] == pcm[FRAME_SIZE_SAMPLES * i..FRAME_SIZE_SAMPLES * (i + 1)]
  {
    seq(|pcm| / FRAME_SIZE_SAMPLES, i requires 0 <= i < |pcm| / FRAME_SIZE_SAMPLES =>
      pcm[FRAME_SIZE_SAMPLES * i..FRAME_SIZE_SAMPLES * (i + 1)])
  }

  lemma ChopOne(pcm: Pcm)
    requires |pcm| >= FRAME_SIZE_SAMPLES
    ensures Chop(pcm) == [pcm[..FRAME_SIZE_SAMPLES]] + Chop(pcm[FRAME_SIZE_SAMPLES..])
  {
    var rest := pcm[FRAME_SIZE_SAMPLES..];
    var fs := [pcm[..FRAME_SIZE_SAMPLES]] + Chop(rest);
    forall i | 1 <= i < |fs|
      ensures fs[i] == pcm[FRAME_SIZE_SAMPLES * i..FRAME_SIZE_SAMPLES * (i + 1)]
    {
      assert Chop(rest)[i - 1] == rest[FRAME_SIZE_SAMPLES * (i - 1)..FRAME_SIZE_SAMPLES * i];
      DropThenSlice(pcm, FRAME_SIZE_SAMPLES * (i - 1), FRAME_SIZE_SAMPLES * i);
    }
    assert Chop(pcm) == fs;
  }

  lemma DropThenSlice(pcm: Pcm, i: nat, j: nat)
    requires i <= j && FRAME_SIZE_SAMPLES + j <= |pcm|
    ensures pcm[FRAME_SIZE_SAMPLES..][i..j] == pcm[FRAME_SIZE_SAMPLES + i..FRAME_SIZE_SAMPLES + j]
  {
  }

  lemma SeekLater(msgs: seq<Message>)
    requires msgs != [] && msgs[0] != Samples([])
    ensures HasSeek(msgs) <==> HasSeek(msgs[1..])
  {
    if HasSeek(msgs) {
      var i :| 0 <= i < |msgs| && msgs[i] == Samples([]);
      assert msgs[1..][i - 1] == Samples([]);
    }
    if HasSeek(msgs[1..]) {
      var i :| 0 <= i < |msgs[1..]| && msgs[1..][i] == Samples([]);
      assert msgs[i + 1] == Samples([]);
    }
  }

  /** The whole frames of the first segment, then those of what follows the seek. */
  function BySegment(msgs: seq<Message>, pending: Pcm): seq<Pcm> {
    Chop(pending + Segment(msgs)) + (if HasSeek(msgs) then Frames(AfterSeek(msgs), []) else [])
  }

  /** What a message adds to the pending samples. */
  function AddedBy(m: Message): Pcm { if m.Samples? then m.pcm else [] }

  /** Chunk boundaries and Opus packets do not matter: a segment of L samples gives its floor(L / 1920) whole
      frames in order, a seek drops the remainder, and the next segment starts afresh. */
  lemma {:induction false} FramesBySegment(msgs: seq<Message>, pending: Pcm)
    ensures Frames(msgs, pending) == BySegment(msgs, pending)
    decreases |msgs|, |pending|
  {
    if |pending| >= FRAME_SIZE_SAMPLES {
      FramesBySegment(msgs, pending[FRAME_SIZE_SAMPLES..]);
      FrameComesFirst(msgs, pending);
    } else if msgs == [] || msgs[0] == Samples([]) {
      SegmentEnds(msgs, pending);
    } else {
      FramesBySegment(msgs[1..], pending + AddedBy(msgs[0]));
      MessageJoins(msgs, pending);
      assert pending + [] == pending;
    }
  }

  lemma {:induction false} FrameComesFirst(msgs: seq<Message>, pending: Pcm)
    requires |pending| >= FRAME_SIZE_SAMPLES
    ensures BySegment(msgs, pending) == [pending[..FRAME_SIZE_SAMPLES]] + BySegment(msgs, pending[FRAME_SIZE_SAMPLES..])
  {
    ChopPending(pending, Segment(msgs));
  }

  lemma {:induction false} SegmentEnds(msgs: seq<Message>, pending: Pcm)
    requires |pending| < FRAME_SIZE_SAMPLES && (msgs == [] || msgs[0] == Samples([]))
    ensures BySegment(msgs, pending) == if msgs == [] then [] else Frames(msgs[1..], [])
  {
    assert pending + [] == pending;
    assert Chop(pending) == [];
    if msgs != [] { assert HasSeek(msgs); }
  }

  lemma {:induction false} MessageJoins(msgs: seq<Message>, pending: Pcm)
    requires msgs != [] && msgs[0] != Samples([])
    ensures BySegment(msgs, pending) == BySegment(msgs[1..], pending + AddedBy(msgs[0]))
  {
    SeekLater(msgs);
    var added, more := AddedBy(msgs[0]), Segment(msgs[1..]);
    assert Segment(msgs) == added + more;
    assert pending + (added + more) == (pending + added) + more;
  }

  lemma {:induction false} ChopPending(pending: Pcm, more: Pcm)
    requires |pending| >= FRAME_SIZE_SAMPLES
    ensures Chop(pending + more) == [pending[..FRAME_SIZE_SAMPLES]] + Chop(pending[FRAME_SIZE_SAMPLES..] + more)
  {
    ChopOne(pending + more);
    assert (pending + more)[..FRAME_SIZE_SAMPLES] == pending[..FRAME_SIZE_SAMPLES];
    assert (pending + more)[FRAME_SIZE_SAMPLES..] == pending[FRAME_SIZE_SAMPLES..] + more;
  }

  // ---------------------------------------------------------------- push mode

  /** `run` on everything the decoder sends before it hangs up. */
  method RunToEnd(msgs: seq<Message>) returns (sent: seq<Pcm>)
    ensures sent == Frames(msgs, [])
  {
    sent := [];
    var pending: Pcm := [];
    var i := 0;
    while i < |msgs|
      invariant 0 <= i <= |msgs| && |pending| < FRAME_SIZE_SAMPLES
      invariant Frames(msgs, []) == sent + Frames(msgs[i..], pending)
    {
      assert msgs[i..][1..] == msgs[i + 1..];
      match msgs[i] {
        case Opus(_) =>
        case Samples(pcm) =>
          if pcm == [] {
            pending := [];
          } else {
            pending := pending + pcm;
            while |pending| >= FRAME_SIZE_SAMPLES
              invariant Frames(msgs, []) == sent + Frames(msgs[i + 1..], pending)
              decreases |pending|
            {
              var frame := pending[..FRAME_SIZE_SAMPLES];
              pending := pending[FRAME_SIZE_SAMPLES..];
              assert sent + ([frame] + Frames(msgs[i + 1..], pending)) ==
                     (sent + [frame]) + Frames(msgs[i + 1..], pending);
              sent := sent + [frame];
            }
          }
      }
      i := i + 1;
    }
    assert msgs[i..] == [];
  }

  // ---------------------------------------------------------------- pull mode

  datatype Popped = Frame(pcm: Pcm) | NotYet | Finished

  /** Whatever arrives later: the frames popped so far and those still to come are those of the stream. */
  ghost predicate Tracks(arrived: seq<Message>, popped: seq<Pcm>, queue: seq<Message>, pending: Pcm) {
    forall more: seq<Message> {:trigger Frames(queue + more, pending)} ::
      Frames(arrived + more, []) == popped + Frames(queue + more, pending)
  }

  lemma TracksArrival(arrived: seq<Message>, popped: seq<Pcm>, queue: seq<Message>, pending: Pcm, m: Message)
    requires Tracks(arrived, popped, queue, pending)
    ensures Tracks(arrived + [m], popped, queue + [m], pending)
  {
    forall more: seq<Message>
      ensures Frames((arrived + [m]) + more, []) == popped + Frames((queue + [m]) + more, pending)
    {
      assert (arrived + [m]) + more == arrived + ([m] + more);
      assert (queue + [m]) + more == queue + ([m] + more);
    }
  }

  lemma TracksReceive(arrived: seq<Message>, popped: seq<Pcm>, queue: seq<Message>, pending: Pcm)
    requires Tracks(arrived, popped, queue, pending) && queue != [] && |pending| < FRAME_SIZE_SAMPLES
    ensures Tracks(arrived, popped, queue[1..],
                   if queue[0].Opus? then pending else if queue[0].pcm == [] then [] else pending + queue[0].pcm)
  {
    var next := if queue[0].Opus? then pending else if queue[0].pcm == [] then [] else pending + queue[0].pcm;
    forall more: seq<Message>
      ensures Frames(arrived + more, []) == popped + Frames(queue[1..] + more, next)
    {
      assert (queue + more)[0] == queue[0] && (queue + more)[1..] == queue[1..] + more;
      assert Frames(queue + more, pending) == Frames(queue[1..] + more, next);
    }
  }

  lemma TracksPop(arrived: seq<Message>, popped: seq<Pcm>, queue: seq<Message>, pending: Pcm)
    requires Tracks(arrived, popped, queue, pending) && |pending| >= FRAME_SIZE_SAMPLES
    ensures Tracks(arrived, popped + [pending[..FRAME_SIZE_SAMPLES]], queue, pending[FRAME_SIZE_SAMPLES..])
  {
    var f, rest := pending[..FRAME_SIZE_SAMPLES], pending[FRAME_SIZE_SAMPLES..];
    forall more: seq<Message>
      ensures Frames(arrived + more, []) == (popped + [f]) + Frames(queue + more, rest)
    {
      assert Frames(queue + more, pending) == [f] + Frames(queue + more, rest);
      assert popped + ([f] + Frames(queue + more, rest)) == (popped + [f]) + Frames(queue + more, rest);
    }
  }

  class FlowController {
    var pendingPcm: Pcm
    var decoderDone: bool
    var latestOpus: seq<seq<int>>
    /** the channel from the decoder, and whether its sending end is gone */
    var queue: seq<Message>
    var disconnected: bool
    ghost var arrived: seq<Message>
    ghost var popped: seq<Pcm>
    /** all whole frames of what has arrived */
    ghost var due: seq<Pcm>

    ghost predicate Valid()
      reads this
    {
      forall w :: Look(w) ==>
        && Tracks(arrived, popped, queue, pendingPcm)
        && due == Frames(arrived, [])
        && (decoderDone ==> disconnected && queue == [] && |pendingPcm| < FRAME_SIZE_SAMPLES)
    }

    /** What is due are the frames of everything that has arrived. */
    lemma DueIsFrames()
      requires Valid()
      ensures due == Frames(arrived, [])
    {
      assert Look(0);
    }

    /** What has been popped comes first. */
    lemma PoppedIsDue()
      requires Valid()
      ensures popped <= due
    {
      assert Look(0);
      assert arrived + [] == arrived && queue + [] == queue;
      assert Frames(arrived, []) == popped + Frames(queue, pendingPcm);
    }

    constructor ()
      ensures Valid() && arrived == [] && popped == [] && !disconnected
    {
      pendingPcm, decoderDone, latestOpus, queue, disconnected := [], false, [], [], false;
      arrived, popped, due := [], [], [];
    }

    /** The decoder sends a message. */
    method Arrive(m: Message)
      requires Valid() && !disconnected
      modifies this`queue, this`arrived, this`due
      ensures Valid() && arrived == old(arrived) + [m]
    {
      assert Look(0);
      TracksArrival(arrived, popped, queue, pendingPcm, m);
      queue := queue + [m];
      arrived := arrived + [m];
      due := Frames(arrived, []);
    }

    method Hangup()
      requires Valid()
      modifies this`disconnected
      ensures Valid() && disconnected
    {
      assert Look(0);
      disconnected := true;
    }

    /** At whatever times it is polled, the frames popped so far are the first ones of the stream of
        everything that has arrived; when it reports the end, they are all of them. */
    method TryPopFrame() returns (r: Popped)
      requires Valid()
      modifies this`pendingPcm, this`decoderDone, this`latestOpus, this`queue, this`popped
      ensures Valid()
      ensures popped == old(popped) + (if r.Frame? then [r.pcm] else [])
      ensures r.Frame? ==> |r.pcm| == FRAME_SIZE_SAMPLES
      ensures popped <= due
      ensures r.Finished? ==> disconnected && popped == due
      ensures r.NotYet? ==> popped == due && !disconnected
    {
      assert Look(0);
      if !decoderDone {
        Receive();
      }
      assert arrived + [] == arrived && queue + [] == queue;
      assert Frames(arrived, []) == popped + Frames(queue, pendingPcm);
      if |pendingPcm| >= FRAME_SIZE_SAMPLES {
        TracksPop(arrived, popped, queue, pendingPcm);
        r := Frame(pendingPcm[..FRAME_SIZE_SAMPLES]);
        pendingPcm := pendingPcm[FRAME_SIZE_SAMPLES..];
        popped := popped + [r.pcm];
        assert Frames(arrived, []) == popped + Frames(queue, pendingPcm);
      } else if decoderDone {
        r := Finished;
      } else {
        r := NotYet;
      }
    }

    /** The receive loop: until a frame is complete or the channel has nothing more. */
    method Receive()
      requires Valid() && !decoderDone
      modifies this`pendingPcm, this`decoderDone, this`latestOpus, this`queue
      ensures Valid()
      ensures |pendingPcm| < FRAME_SIZE_SAMPLES ==> queue == [] && (decoderDone <==> disconnected)
    {
      assert Look(0);
      while |pendingPcm| < FRAME_SIZE_SAMPLES
        invariant Valid() && !decoderDone
        decreases |queue|
      {
        if queue == [] {
          decoderDone := disconnected;
          break;
        }
        TracksReceive(arrived, popped, queue, pendingPcm);
        match queue[0] {
          case Opus(packet) => latestOpus := [packet];
          case Samples(pcm) => pendingPcm := if pcm == [] then [] else pendingPcm + pcm;
        }
        queue := queue[1..];
      }
    }
  }

  /** What happens to a controller in pull mode: the decoder sends a message, or the mixer polls. */
  datatype Action = Send(m: Message) | Poll

  function Sent(actions: seq<Action>): seq<Message> {
    if actions == [] then []
    else
      var last := actions[|actions| - 1];
      Sent(actions[..|actions| - 1]) + (if last.Send? then [last.m] else [])
  }

  /** Push and pull agree: whenever the messages arrive and whenever it is polled, a controller that is polled to
      the end yields what `run` sends. */
  method PullToEnd(actions: seq<Action>) returns (frames: seq<Pcm>)
    ensures frames == Frames(Sent(actions), [])
  {
    var flow := new FlowController();
    frames := [];
    var i := 0;
    while i < |actions|
      invariant 0 <= i <= |actions| && flow.Valid() && !flow.disconnected
      invariant flow.arrived == Sent(actions[..i]) && flow.popped == frames
    {
      assert actions[..i + 1][..i] == actions[..i];
      match actions[i] {
        case Send(m) =>
          flow.Arrive(m);
        case Poll =>
          var r := flow.TryPopFrame();
          if r.Frame? {
            frames := frames + [r.pcm];
          }
      }
      i := i + 1;
    }
    assert actions[..i] == actions;
    flow.Hangup();
    var rest := PollToEnd(flow);
    frames := frames + rest;
  }

  /** Poll until the end is reported. */
  method PollToEnd(flow: FlowController) returns (rest: seq<Pcm>)
    requires flow.Valid() && flow.disconnected
    modifies flow
    ensures flow.Valid() && flow.popped == old(flow.popped) + rest == Frames(old(flow.arrived), [])
  {
    flow.DueIsFrames();
    ghost var before := flow.popped;
    rest := [];
    var r := flow.TryPopFrame();
    while r.Frame?
      invariant flow.Valid() && flow.arrived == old(flow.arrived) && flow.due == old(flow.due) && flow.disconnected
      invariant flow.popped == before + rest + (if r.Frame? then [r.pcm] else [])
      invariant flow.popped <= flow.due
      invariant r.Finished? ==> flow.popped == flow.due
      invariant !r.NotYet?
      decreases |flow.due| - |flow.popped|, r.Frame?
    {
      rest := rest + [r.pcm];
      r := flow.TryPopFrame();
    }
  }
}
