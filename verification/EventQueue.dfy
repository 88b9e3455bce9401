/** The event queue of a paused session (`send_json` and `take_event_queue` in server/session.rs). */
module EventQueue {
  import opened Common

  type Json = seq<Byte>

  function TotalBytes(q: seq<Json>): nat { if q == [] then 0 else |q[0]| + TotalBytes(q[1..]) }

  /** `max_queue_size * 64 KiB`, clamped to 64 KiB .. 64 MiB. */
  function MaxQueueBytes(maxSize: nat): (m: nat)
    ensures 65_536 <= m <= 67_108_864
  {
    var budget := maxSize * 65_536;
    if budget < 65_536 then 65_536 else if budget > 67_108_864 then 67_108_864 else budget
  }

  /** 64 KiB for each event the queue may hold, but for at least one and at most 1024 of them. */
  lemma BudgetPerEvent(maxSize: nat)
    ensures MaxQueueBytes(maxSize) == 65_536 * (if maxSize < 1 then 1 else if maxSize > 1024 then 1024 else maxSize)
  {
  }

  predicate Fits(q: seq<Json>, maxSize: nat) { |q| <= maxSize && TotalBytes(q) <= MaxQueueBytes(maxSize) }

  /** `q` is the longest suffix of `events` that meets the count cap and the byte cap. */
  ghost predicate LongestFit(events: seq<Json>, q: seq<Json>, maxSize: nat) {
    && |q| <= |events|
    && q == events[|events| - |q|..]
    && Fits(q, maxSize)
    && forall k :: 0 <= k < |events| - |q| ==> !Fits(events[k..], maxSize)
  }

  /** In numbers: the queue holds no more events and bytes than allowed, and one event more would be too many of one. */
  lemma LongestFitCaps(events: seq<Json>, q: seq<Json>, maxSize: nat)
    requires LongestFit(events, q, maxSize)
    ensures |q| <= maxSize && TotalBytes(q) <= MaxQueueBytes(maxSize)
    ensures |q| < |events| ==>
              |q| == maxSize || TotalBytes(q) + |events[|events| - |q| - 1]| > MaxQueueBytes(maxSize)
  {
    if |q| < |events| {
      var k := |events| - |q| - 1;
      assert events[k..] == [events[k]] + q;
      assert !Fits(events[k..], maxSize);
      assert TotalBytes(events[k..]) == |events[k]| + TotalBytes(q);
    }
  }

  lemma LongestFitUnique(events: seq<Json>, p: seq<Json>, q: seq<Json>, maxSize: nat)
    requires LongestFit(events, p, maxSize) && LongestFit(events, q, maxSize)
    ensures p == q
  {
    assert Fits(events[|events| - |p|..], maxSize) && Fits(events[|events| - |q|..], maxSize);
  }

  lemma {:induction false} TotalBytesConcat(a: seq<Json>, b: seq<Json>)
    ensures TotalBytes(a + b) == TotalBytes(a) + TotalBytes(b)
  {
    if a == [] {
      assert a + b == b;
    } else {
      TotalBytesConcat(a[1..], b);
      assert (a + b)[1..] == a[1..] + b;
    }
  }

  lemma SuffixFits(q: seq<Json>, k: nat, maxSize: nat)
    requires k <= |q| && Fits(q, maxSize)
    ensures Fits(q[k..], maxSize)
  {
    TotalBytesConcat(q[..k], q[k..]);
    assert q == q[..k] + q[k..];
  }

  /** Appending an event to what is kept of a history: dropping from the front just enough keeps the
      longest fit of the longer history. */
  lemma AppendKeepsLongest(events: seq<Json>, q: seq<Json>, e: Json, k: nat, maxSize: nat)
    requires LongestFit(events, q, maxSize) && k <= |q| && Fits(q[k..] + [e], maxSize)
    requires k > 0 ==> !Fits(q[k - 1..] + [e], maxSize)
    ensures LongestFit(events + [e], q[k..] + [e], maxSize)
  {
    var more, kept := events + [e], q[k..] + [e];
    var start := |events| - |q|;
    assert more[|more| - |kept|..] == events[start + k..] + [e] == kept;
    forall j | 0 <= j < |more| - |kept| ensures !Fits(more[j..], maxSize) {
      assert more[j..] == events[j..] + [e];
      if j < start {
        // already the history without `e` did not fit from here
        if Fits(more[j..], maxSize) {
          TotalBytesConcat(events[j..], [e]);
          assert Fits(events[j..], maxSize);
        }
      } else {
        var worst := q[k - 1..] + [e];
        assert more[j..][start + k - 1 - j..] == worst;
        if Fits(more[j..], maxSize) { SuffixFits(more[j..], start + k - 1 - j, maxSize); }
      }
    }
  }

  class Session {
    const maxQueueSize: nat
    const maxQueueBytes: nat
    var paused: bool
    var eventQueue: seq<Json>
    /** unsigned in the source: that it is a nat here means that no subtraction underflows */
    var queueBytes: nat
    /** what went straight to the connection */
    var sent: seq<Json>
    /** the events accepted for queueing since the queue was last taken */
    ghost var history: seq<Json>

    ghost predicate Valid()
      reads this
    {
      && maxQueueBytes == MaxQueueBytes(maxQueueSize)
      && queueBytes == TotalBytes(eventQueue)
      && LongestFit(history, eventQueue, maxQueueSize)
    }

    constructor (maxQueueSize: nat)
      ensures Valid() && history == [] && !paused && sent == [] && this.maxQueueSize == maxQueueSize
    {
      this.maxQueueSize := maxQueueSize;
      maxQueueBytes := MaxQueueBytes(maxQueueSize);
      paused, eventQueue, queueBytes, sent, history := false, [], 0, [], [];
    }

    /** Drop the oldest event. */
    method PopFront()
      requires eventQueue != [] && queueBytes == TotalBytes(eventQueue)
      modifies this`eventQueue, this`queueBytes
      ensures eventQueue == old(eventQueue)[1..] && queueBytes == TotalBytes(eventQueue)
    {
      queueBytes := queueBytes - |eventQueue[0]|;
      eventQueue := eventQueue[1..];
    }

    /** While paused, an event too large for the byte budget is dropped; any other one is queued after
        just as many of the oldest events as necessary have been dropped. The queue is then the longest
        suffix of all accepted events that meets both caps. */
    method SendJson(json: Json)
      requires Valid()
      modifies this
      ensures Valid() && paused == old(paused)
      ensures !paused ==> sent == old(sent) + [json] && history == old(history) && eventQueue == old(eventQueue)
      ensures paused ==> sent == old(sent)
      ensures paused ==> history == old(history) + (if |json| <= maxQueueBytes && maxQueueSize > 0 then [json] else [])
    {
      if !paused {
        sent := sent + [json];
        return;
      }
      if maxQueueSize == 0 || |json| > maxQueueBytes {
        return;
      }
      Enqueue(json);
    }

    method Perform(op: Op)
      requires Valid() && paused
      modifies this
      ensures Valid() && paused && history == AcceptOne(old(history), op, maxQueueSize)
    {
      if op.Send? {
        SendJson(op.json);
      } else {
        var _ := TakeEventQueue();
      }
    }

    method Enqueue(json: Json)
      requires Valid() && maxQueueSize > 0 && |json| <= maxQueueBytes
      modifies this`eventQueue, this`queueBytes, this`history
      ensures Valid() && history == old(history) + [json]
    {
      ghost var q, h := eventQueue, history;
      ghost var k := MakeRoom(json);
      ghost var kept := eventQueue + [json];
      assert LongestFit(h + [json], kept, maxQueueSize) by {
        AppendKeepsLongest(h, q, json, k, maxQueueSize);
      }
      TotalBytesConcat(eventQueue, [json]);
      queueBytes := queueBytes + |json|;
      eventQueue := eventQueue + [json];
      history := history + [json];
    }

    /** The two eviction loops: first for the count cap, then for the byte cap. No event is dropped that
        could have stayed. */
    method MakeRoom(json: Json) returns (ghost k: nat)
      requires maxQueueBytes == MaxQueueBytes(maxQueueSize) && queueBytes == TotalBytes(eventQueue)
      requires maxQueueSize > 0 && |json| <= maxQueueBytes
      modifies this`eventQueue, this`queueBytes
      ensures k <= |old(eventQueue)| && eventQueue == old(eventQueue)[k..] && queueBytes == TotalBytes(eventQueue)
      ensures Fits(eventQueue + [json], maxQueueSize)
      ensures k > 0 ==> !Fits(old(eventQueue)[k - 1..] + [json], maxQueueSize)
    {
      ghost var q := eventQueue;
      k := 0;
      while |eventQueue| >= maxQueueSize && eventQueue != []
        invariant k <= |q| && eventQueue == q[k..] && queueBytes == TotalBytes(eventQueue)
        invariant k > 0 ==> !Fits(q[k - 1..] + [json], maxQueueSize)
        decreases |eventQueue|
      {
        PopFront();
        k := k + 1;
      }
      while queueBytes + |json| > maxQueueBytes && eventQueue != []
        invariant k <= |q| && eventQueue == q[k..] && queueBytes == TotalBytes(eventQueue)
        invariant k > 0 ==> !Fits(q[k - 1..] + [json], maxQueueSize)
        invariant |eventQueue| < maxQueueSize
        decreases |eventQueue|
      {
        TotalBytesConcat(eventQueue, [json]);
        PopFront();
        k := k + 1;
      }
      TotalBytesConcat(eventQueue, [json]);
    }

    /** `take_event_queue`: on resume, everything queued is handed over, in order. */
    method TakeEventQueue() returns (queued: seq<Json>)
      requires Valid()
      modifies this
      ensures Valid() && queued == old(eventQueue) && eventQueue == [] && history == []
      ensures LongestFit(old(history), queued, maxQueueSize)
      ensures paused == old(paused) && sent == old(sent)
    {
      queued := eventQueue;
      queueBytes := 0;
      eventQueue := [];
      history := [];
    }
  }

  // ---------------------------------------------------------------- whole runs

  datatype Op = Send(json: Json) | Take

  function AcceptOne(before: seq<Json>, op: Op, maxSize: nat): seq<Json> {
    match op
    case Take => []
    case Send(e) => if |e| <= MaxQueueBytes(maxSize) && maxSize > 0 then before + [e] else before
  }

  /** Accepted events since the last take. */
  function Accepted(ops: seq<Op>, maxSize: nat): seq<Json> {
    if ops == [] then [] else AcceptOne(Accepted(ops[..|ops| - 1], maxSize), ops[|ops| - 1], maxSize)
  }

  lemma AcceptedNext(ops: seq<Op>, i: nat, maxSize: nat)
    requires i < |ops|
    ensures Accepted(ops[..i + 1], maxSize) == AcceptOne(Accepted(ops[..i], maxSize), ops[i], maxSize)
  {
    assert ops[..i + 1][..i] == ops[..i];
  }

  /** After any sequence of sends and takes while paused, the queue is the longest suffix of the events
      accepted since the last take. Whatever it lacks did not fit. */
  method RunPaused(ops: seq<Op>, maxSize: nat) returns (queue: seq<Json>)
    ensures LongestFit(Accepted(ops, maxSize), queue, maxSize)
  {
    var session := new Session(maxSize);
    session.paused := true;
    var i := 0;
    while i < |ops|
      invariant 0 <= i <= |ops|
      invariant session.Valid() && session.paused && session.maxQueueSize == maxSize
      invariant session.history == Accepted(ops[..i], maxSize)
    {
      AcceptedNext(ops, i, maxSize);
      session.Perform(ops[i]);
      i := i + 1;
    }
    assert ops[..i] == ops;
    queue := session.eventQueue;
  }
}
