/** The chunked remote reader (engine/source/segmented.rs): one blocking reader and several fetch
    workers share a chunk map under a lock. Every critical section is one atomic step, and a run is
    any interleaving of such steps. */
module Segmented {
  import opened Common
  import opened HttpRange
  import opened Indexing

  const CHUNK_SIZE: nat := 262144
  const PREFETCH_CHUNKS: nat := 4
  const MAX_CONCURRENT_FETCHES: nat := 4
  const MAX_FETCH_RETRIES: nat := 5

  datatype ChunkState = Empty(retries: nat) | Downloading | Ready(bytes: seq<Byte>)

  datatype Worker = Idle | Fetching(idx: nat, retries: nat)

  /** `Waiting(want)`: inside `read` with a buffer of `want` bytes, parked on the condition variable. */
  datatype Reader = Resting | Waiting(want: nat)

  datatype State = State(
    pos: nat,
    len: nat,
    currentPos: nat,
    chunks: map<nat, ChunkState>,
    fatal: bool,
    terminated: bool,
    reader: Reader,
    workers: seq<Worker>)

  datatype SeekFrom = Start(p: nat) | Current(delta: int) | End(delta: int)

  datatype Event =
    | ReadCall(want: nat)
    | Wake
    | SeekTo(target: SeekFrom)
    | Claim(w: nat)
    | Complete(w: nat, body: seq<Byte>)
    | Fail(w: nat)
    | Drop

  /** What a step hands to the caller of `read`. `Parked` means the call has not returned yet. */
  datatype Output = Silent | Parked | Bytes(data: seq<Byte>) | ReadError

  function Init(len: nat): State {
    State(0, len, 0, map[0 := Empty(0)], false, false, Resting,
          seq(MAX_CONCURRENT_FETCHES, _ => Idle))
  }

  // ---------------------------------------------------------------- the reader's steps

  function ReadyFrom(chunks: map<nat, ChunkState>, c: nat): set<nat> {
    set k | k in chunks.Keys && k >= c && chunks[k].Ready?
  }

  /** `retain(|idx| idx >= chunk_idx - 1)`, applied only past chunk 1. */
  function Evict(chunks: map<nat, ChunkState>, c: nat): map<nat, ChunkState> {
    if c > 1 then map k | k in chunks && k >= c - 1 :: chunks[k] else chunks
  }

  /** The `read` loop from the moment the lock is held until it is released. */
  function ReadLoop(s: State, want: nat): (r: (State, Output))
    decreases ReadyFrom(s.chunks, s.pos / CHUNK_SIZE)
  {
    var c, offset := s.pos / CHUNK_SIZE, s.pos % CHUNK_SIZE;
    if s.fatal then (s.(reader := Resting), ReadError)
    else if c !in s.chunks then
      (s.(chunks := s.chunks[c := Empty(0)], reader := Waiting(want)), Parked)
    else match s.chunks[c]
      case Ready(bytes) =>
        if offset >= |bytes| then
          var next := (c + 1) * CHUNK_SIZE;
          assert c in ReadyFrom(s.chunks, c) && c !in ReadyFrom(s.chunks, c + 1);
          ReadLoop(s.(pos := next, currentPos := next), want)
        else
          var n := Min(want, |bytes| - offset);
          (s.(pos := s.pos + n, currentPos := s.pos + n, reader := Resting,
              chunks := Evict(s.chunks, c)),
           Bytes(bytes[offset..offset + n]))
      case _ => (s.(reader := Waiting(want)), Parked)
  }

  function ReadCallStep(s: State, want: nat): (State, Output) {
    if s.pos >= s.len then (s, Bytes([])) else ReadLoop(s.(currentPos := s.pos), want)
  }

  /** `u64::saturating_add_signed`. */
  function SaturatingAdd(a: nat, d: int): nat {
    if a + d < 0 then 0 else Min(a + d, U64_LIMIT - 1)
  }

  function SeekTarget(s: State, target: SeekFrom): nat {
    Min(match target
        case Start(p) => p
        case Current(d) => SaturatingAdd(s.pos, d)
        case End(d) => SaturatingAdd(s.len, d),
        s.len)
  }

  // ---------------------------------------------------------------- the workers' steps

  /** `try_claim_chunk`: the retry count carried over if `idx` may be claimed. */
  function TryClaim(s: State, idx: nat): Option<(nat, nat)> {
    if idx * CHUNK_SIZE >= s.len then None
    else if idx !in s.chunks then Some((idx, 0))
    else match s.chunks[idx]
      case Empty(r) => Some((idx, r))
      case _ => None
  }

  /** First claimable chunk among `cur + j .. cur + window`, giving up at the end of the resource. */
  function ScanAhead(s: State, cur: nat, j: nat, window: nat): Option<(nat, nat)>
    decreases window - j
  {
    if j >= window || (cur + j) * CHUNK_SIZE >= s.len then None
    else match TryClaim(s, cur + j)
      case Some(t) => Some(t)
      case None => ScanAhead(s, cur, j + 1, window)
  }

  /** The chunk a worker would take: the cursor's own chunk first, then the prefetch window, which
      is narrowed to one chunk ahead while the cursor's chunk is missing. */
  function ClaimTarget(s: State): Option<(nat, nat)> {
    var cur := s.currentPos / CHUNK_SIZE;
    match TryClaim(s, cur)
    case Some(t) => Some(t)
    case None =>
      ScanAhead(s, cur, 1, if cur in s.chunks && s.chunks[cur].Ready? then PREFETCH_CHUNKS else 2)
  }

  function ClaimStep(s: State, w: nat): State
    requires w < |s.workers|
  {
    match ClaimTarget(s)
    case None => s
    case Some((idx, r)) =>
      s.(chunks := s.chunks[idx := Downloading], workers := s.workers[w := Fetching(idx, r)])
  }

  function CompleteStep(s: State, w: nat, body: seq<Byte>): State
    requires w < |s.workers| && s.workers[w].Fetching?
  {
    s.(chunks := s.chunks[s.workers[w].idx := Ready(body)], workers := s.workers[w := Idle])
  }

  /** `requeue_or_fatal`. */
  function FailStep(s: State, w: nat): State
    requires w < |s.workers| && s.workers[w].Fetching?
  {
    var Fetching(idx, r) := s.workers[w];
    if r >= MAX_FETCH_RETRIES then s.(fatal := true, workers := s.workers[w := Idle])
    else s.(chunks := s.chunks[idx := Empty(r + 1)], workers := s.workers[w := Idle])
  }

  // ---------------------------------------------------------------- runs

  /** Chunk `k` of the remote resource. */
  function ChunkOf(remote: seq<Byte>, k: nat): seq<Byte>
    requires k * CHUNK_SIZE < |remote|
  {
    remote[k * CHUNK_SIZE..Min((k + 1) * CHUNK_SIZE, |remote|)]
  }

  /** When an event can happen. A completed fetch carries the remote chunk: `NetworkRefines` below derives this from
      the responses. A fetch may fail at any time, and everything else is up to the scheduler. */
  ghost predicate Enabled(remote: seq<Byte>, s: State, e: Event) {
    match e
    case ReadCall(_) => s.reader.Resting? && !s.terminated
    case Wake => s.reader.Waiting?
    case SeekTo(_) => s.reader.Resting? && !s.terminated
    case Claim(w) => w < |s.workers| && s.workers[w].Idle? && !s.terminated
    case Complete(w, body) =>
      && w < |s.workers| && s.workers[w].Fetching?
      && s.workers[w].idx * CHUNK_SIZE < |remote|
      && body == ChunkOf(remote, s.workers[w].idx)
    case Fail(w) => w < |s.workers| && s.workers[w].Fetching?
    case Drop => s.reader.Resting?
  }

  ghost function Step(remote: seq<Byte>, s: State, e: Event): (State, Output)
    requires Enabled(remote, s, e)
  {
    match e
    case ReadCall(want) => ReadCallStep(s, want)
    case Wake => ReadLoop(s, s.reader.want)
    case SeekTo(t) => (s.(pos := SeekTarget(s, t), currentPos := SeekTarget(s, t)), Silent)
    case Claim(w) => (ClaimStep(s, w), Silent)
    case Complete(w, body) => (CompleteStep(s, w, body), Silent)
    case Fail(w) => (FailStep(s, w), Silent)
    case Drop => (s.(terminated := true), Silent)
  }

  /** What the run so far has done: downloads started and finished per chunk, the lowest chunk that
      eviction has never touched, and the bytes delivered since the last seek (to `base`). */
  datatype History = History(
    claims: multiset<nat>,
    fills: multiset<nat>,
    floor: nat,
    base: nat,
    delivered: seq<Byte>)

  const NO_HISTORY := History(multiset{}, multiset{}, 0, 0, [])

  ghost function Record(remote: seq<Byte>, s: State, h: History, e: Event): History
    requires Enabled(remote, s, e)
  {
    match e
    case SeekTo(t) => h.(base := SeekTarget(s, t), delivered := [])
    case Claim(w) =>
      var target := ClaimTarget(s);
      if target.Some? then h.(claims := h.claims + multiset{target.value.0}) else h
    case Complete(w, _) => h.(fills := h.fills + multiset{s.workers[w].idx})
    case _ => RecordOutput(s, h, Step(remote, s, e).1)
  }

  ghost function RecordOutput(s: State, h: History, out: Output): History {
    if out.Bytes? && s.pos < s.len then
      var c := s.pos / CHUNK_SIZE;
      h.(floor := if c > 1 && c - 1 > h.floor then c - 1 else h.floor,
         delivered := h.delivered + out.data)
    else h
  }

  ghost predicate ValidRun(remote: seq<Byte>, s: State, evs: seq<Event>)
    decreases |evs|
  {
    evs != [] ==> Enabled(remote, s, evs[0]) && ValidRun(remote, Step(remote, s, evs[0]).0, evs[1..])
  }

  ghost function RunState(remote: seq<Byte>, s: State, evs: seq<Event>): State
    requires ValidRun(remote, s, evs)
    decreases |evs|
  {
    if evs == [] then s else RunState(remote, Step(remote, s, evs[0]).0, evs[1..])
  }

  ghost function RunHistory(remote: seq<Byte>, s: State, h: History, evs: seq<Event>): History
    requires ValidRun(remote, s, evs)
    decreases |evs|
  {
    if evs == [] then h
    else RunHistory(remote, Step(remote, s, evs[0]).0, Record(remote, s, h, evs[0]), evs[1..])
  }

  // ---------------------------------------------------------------- agreement with the remote

  ghost predicate GoodChunk(remote: seq<Byte>, k: nat, st: ChunkState) {
    && k * CHUNK_SIZE < |remote|
    && (st.Ready? ==> st.bytes == ChunkOf(remote, k))
    && (st.Empty? ==> st.retries <= MAX_FETCH_RETRIES)
  }

  ghost predicate GoodWorker(remote: seq<Byte>, w: Worker) {
    w.Fetching? ==> w.idx * CHUNK_SIZE < |remote| && w.retries <= MAX_FETCH_RETRIES
  }

  ghost predicate InFlight(s: State, k: nat) {
    exists w :: 0 <= w < |s.workers| && s.workers[w].Fetching? && s.workers[w].idx == k
  }

  ghost predicate Inv(remote: seq<Byte>, s: State) {
    && 1 <= s.len == |remote| < U64_LIMIT
    && |s.workers| == MAX_CONCURRENT_FETCHES
    && s.currentPos == s.pos <= s.len
    && (s.reader.Waiting? ==> s.pos < s.len)
    && (forall k :: k in s.chunks ==> GoodChunk(remote, k, s.chunks[k]))
    && (forall w :: 0 <= w < |s.workers| ==> GoodWorker(remote, s.workers[w]))
    // no chunk is stuck: one that is being downloaded has a downloader, unless the source failed
    && (forall k :: k in s.chunks && s.chunks[k].Downloading? ==> s.fatal || InFlight(s, k))
  }

  /** What one pass of the read loop does in a state a run can reach: it fails only after a fatal
      fetch, parks only if the cursor's chunk is not there yet, and otherwise delivers exactly the
      remote bytes at `pos`, up to the end of the chunk. */
  ghost predicate ReadEffect(remote: seq<Byte>, s: State, want: nat, s': State, out: Output)
    requires s.len == |remote|
  {
    var c := s.pos / CHUNK_SIZE;
    match out
    case ReadError => s.fatal && s' == s.(reader := Resting)
    case Parked =>
      && s' == s.(reader := Waiting(want),
                  chunks := if c in s.chunks then s.chunks else s.chunks[c := Empty(0)])
      && !s'.chunks[c].Ready?
    case Bytes(data) =>
      var n := Min(want, Min((c + 1) * CHUNK_SIZE, s.len) - s.pos);
      && 0 <= n
      && s.pos + n <= s.len
      && data == remote[s.pos..s.pos + n]
      && (want > 0 ==> n > 0)
      && s' == s.(pos := s.pos + n, currentPos := s.pos + n, reader := Resting,
                  chunks := Evict(s.chunks, c))
    case Silent => false
  }

  /** So the branch that skips an exhausted chunk is never taken. */
  lemma ReadLoopDelivers(remote: seq<Byte>, s: State, want: nat)
    requires Inv(remote, s) && s.pos < s.len
    ensures var (s', out) := ReadLoop(s, want); ReadEffect(remote, s, want, s', out)
  {
    var c: nat := s.pos / CHUNK_SIZE;
    if !s.fatal && c in s.chunks && s.chunks[c].Ready? {
      assert GoodChunk(remote, c, s.chunks[c]);
      ReadyDelivers(remote, s, want);
    }
  }

  lemma ReadyDelivers(remote: seq<Byte>, s: State, want: nat)
    requires var c: nat := s.pos / CHUNK_SIZE;
             !s.fatal && c in s.chunks && s.chunks[c].Ready? && GoodChunk(remote, c, s.chunks[c])
    requires s.pos < s.len == |remote|
    ensures var (s', out) := ReadLoop(s, want); ReadEffect(remote, s, want, s', out)
  {
    var c: nat, offset: nat := s.pos / CHUNK_SIZE, s.pos % CHUNK_SIZE;
    var bytes := s.chunks[c].bytes;
    assert c * CHUNK_SIZE + offset == s.pos;
    ChunkSlice(remote, c, offset, want);
    var n := Min(want, |bytes| - offset);
    ReadLoopReady(s, want, c, offset, bytes, n);
    DeliveryIsEffect(remote, s, want, n);
  }

  function Delivered(s: State, n: nat): State {
    s.(pos := s.pos + n, currentPos := s.pos + n, reader := Resting, chunks := Evict(s.chunks, s.pos / CHUNK_SIZE))
  }

  lemma ReadLoopReady(s: State, want: nat, c: nat, offset: nat, bytes: seq<Byte>, n: nat)
    requires !s.fatal && c == s.pos / CHUNK_SIZE && offset == s.pos % CHUNK_SIZE < |bytes|
    requires c in s.chunks && s.chunks[c] == Ready(bytes) && n == Min(want, |bytes| - offset)
    ensures ReadLoop(s, want) == (Delivered(s, n), Bytes(bytes[offset..offset + n]))
  {
  }

  lemma DeliveryIsEffect(remote: seq<Byte>, s: State, want: nat, n: nat)
    requires s.pos < s.len == |remote|
    requires n == Min(want, Min((s.pos / CHUNK_SIZE + 1) * CHUNK_SIZE, s.len) - s.pos)
    ensures s.pos + n <= s.len && ReadEffect(remote, s, want, Delivered(s, n), Bytes(remote[s.pos..s.pos + n]))
  {
  }

  /** Reading from a chunk reads from the remote file. */
  lemma ChunkSlice(remote: seq<Byte>, c: nat, offset: nat, want: nat)
    requires c * CHUNK_SIZE + offset < |remote| && offset < CHUNK_SIZE
    ensures offset < |ChunkOf(remote, c)|
    ensures var pos, n := c * CHUNK_SIZE + offset, Min(want, |ChunkOf(remote, c)| - offset);
            && n == Min(want, Min((c + 1) * CHUNK_SIZE, |remote|) - pos)
            && ChunkOf(remote, c)[offset..offset + n] == remote[pos..pos + n]
  {
  }

  function Wanted(s: State, e: Event): nat
    requires e.ReadCall? || s.reader.Waiting?
  {
    if e.ReadCall? then e.want else s.reader.want
  }

  lemma ReadStepDelivers(remote: seq<Byte>, s: State, e: Event)
    requires Inv(remote, s) && s.pos < s.len && Enabled(remote, s, e) && (e.ReadCall? || e.Wake?)
    ensures var (s', out) := Step(remote, s, e); ReadEffect(remote, s, Wanted(s, e), s', out)
  {
    assert s.(currentPos := s.pos) == s;
    ReadLoopDelivers(remote, s, Wanted(s, e));
  }

  lemma ReadKeeps(remote: seq<Byte>, s: State, want: nat, s': State, out: Output)
    requires Inv(remote, s) && s.pos < s.len && ReadEffect(remote, s, want, s', out)
    ensures Inv(remote, s')
  {
    forall k | k in s'.chunks && s'.chunks[k].Downloading? ensures s'.fatal || InFlight(s', k) {
      assert s.fatal || InFlight(s, k);
    }
  }

  lemma ScanAheadClaimable(s: State, cur: nat, j: nat, window: nat)
    ensures var t := ScanAhead(s, cur, j, window);
            t.Some? ==> cur + j <= t.value.0 < cur + window && TryClaim(s, t.value.0) == t
    decreases window - j
  {
  }

  /** A claimed chunk lies in the prefetch window at or after the cursor, exists remotely, is neither
      present nor being downloaded, and keeps its retry count. */
  lemma ClaimTargetWindow(s: State)
    ensures var t := ClaimTarget(s);
            t.Some? ==>
              var (idx, r) := t.value;
              && s.currentPos / CHUNK_SIZE <= idx < s.currentPos / CHUNK_SIZE + PREFETCH_CHUNKS
              && idx * CHUNK_SIZE < s.len
              && (idx !in s.chunks ==> r == 0)
              && (idx in s.chunks ==> s.chunks[idx] == Empty(r))
  {
    var cur := s.currentPos / CHUNK_SIZE;
    ScanAheadClaimable(s, cur, 1, PREFETCH_CHUNKS);
    ScanAheadClaimable(s, cur, 1, 2);
  }

  /** A chunk that a worker may take: part of the file, and neither there nor being downloaded. */
  predicate MayClaim(s: State, k: nat) {
    k * CHUNK_SIZE < s.len && (k in s.chunks ==> s.chunks[k].Empty?)
  }

  lemma {:induction false} ScanFindsFirst(s: State, cur: nat, j: nat, window: nat)
    requires j <= window
    ensures var t := ScanAhead(s, cur, j, window);
            if t.None? then forall k :: cur + j <= k < cur + window ==> !MayClaim(s, k)
            else cur + j <= t.value.0 < cur + window && MayClaim(s, t.value.0) &&
                 forall k :: cur + j <= k < t.value.0 ==> !MayClaim(s, k)
    decreases window - j
  {
    if j < window {
      if (cur + j) * CHUNK_SIZE < s.len { ScanFindsFirst(s, cur, j + 1, window); }
    }
  }

  /** A worker takes the first chunk it may take: of the prefetch window, or of the next two while the one at the cursor
      is not there. It takes none only if there is none. */
  lemma ClaimsFirst(s: State)
    ensures var cur, t := s.currentPos / CHUNK_SIZE, ClaimTarget(s);
            var end := cur + if cur in s.chunks && s.chunks[cur].Ready? then PREFETCH_CHUNKS else 2;
            if t.None? then forall k: nat :: cur <= k < end ==> !MayClaim(s, k)
            else cur <= t.value.0 < end && MayClaim(s, t.value.0) &&
                 forall k: nat :: cur <= k < t.value.0 ==> !MayClaim(s, k)
  {
    var cur := s.currentPos / CHUNK_SIZE;
    ScanFindsFirst(s, cur, 1, if cur in s.chunks && s.chunks[cur].Ready? then PREFETCH_CHUNKS else 2);
  }

  /** A source that was dropped stays so: nothing is read, sought or claimed any more. */
  lemma {:induction false} DroppedIsFinal(remote: seq<Byte>, s: State, evs: seq<Event>)
    requires Enabled(remote, s, Drop) && ValidRun(remote, Step(remote, s, Drop).0, evs)
    ensures forall i :: 0 <= i < |evs| ==> !evs[i].ReadCall? && !evs[i].SeekTo? && !evs[i].Claim?
  {
    TerminatedStays(remote, Step(remote, s, Drop).0, evs);
  }

  lemma {:induction false} TerminatedStays(remote: seq<Byte>, s: State, evs: seq<Event>)
    requires s.terminated && s.reader.Resting? && ValidRun(remote, s, evs)
    ensures forall i :: 0 <= i < |evs| ==> !evs[i].ReadCall? && !evs[i].SeekTo? && !evs[i].Claim?
    decreases |evs|
  {
    if evs != [] {
      TerminatedStays(remote, Step(remote, s, evs[0]).0, evs[1..]);
    }
  }

  lemma ClaimKeeps(remote: seq<Byte>, s: State, w: nat)
    requires Inv(remote, s) && w < |s.workers| && s.workers[w].Idle?
    ensures Inv(remote, ClaimStep(s, w))
  {
    ClaimTargetWindow(s);
    StillInFlight(remote, s, ClaimStep(s, w), w);
  }

  lemma CompleteKeeps(remote: seq<Byte>, s: State, w: nat)
    requires Inv(remote, s) && w < |s.workers| && s.workers[w].Fetching?
    requires s.workers[w].idx * CHUNK_SIZE < |remote|
    ensures Inv(remote, CompleteStep(s, w, ChunkOf(remote, s.workers[w].idx)))
  {
    StillInFlight(remote, s, CompleteStep(s, w, ChunkOf(remote, s.workers[w].idx)), w);
  }

  lemma FailKeeps(remote: seq<Byte>, s: State, w: nat)
    requires Inv(remote, s) && w < |s.workers| && s.workers[w].Fetching?
    ensures Inv(remote, FailStep(s, w))
  {
    assert GoodWorker(remote, s.workers[w]);
    StillInFlight(remote, s, FailStep(s, w), w);
  }

  /** If only worker `w` moves, and it starts what it marks and unmarks what it ends, then every chunk
      marked as downloading still has a downloader. */
  lemma StillInFlight(remote: seq<Byte>, s: State, s': State, w: nat)
    requires Inv(remote, s) && w < |s.workers| == |s'.workers| && (s.fatal ==> s'.fatal)
    requires s'.workers == s.workers[w := s'.workers[w]]
    requires forall k :: k in s'.chunks && s'.chunks[k].Downloading? && !s'.fatal ==>
               || (s'.workers[w].Fetching? && s'.workers[w].idx == k)
               || (k in s.chunks && s.chunks[k].Downloading? && !(s.workers[w].Fetching? && s.workers[w].idx == k))
    ensures forall k :: k in s'.chunks && s'.chunks[k].Downloading? ==> s'.fatal || InFlight(s', k)
  {
    forall k | k in s'.chunks && s'.chunks[k].Downloading? && !s'.fatal ensures InFlight(s', k) {
      if s'.workers[w].Fetching? && s'.workers[w].idx == k {
        assert InFlight(s', k);
      } else {
        assert InFlight(s, k);
        var v :| 0 <= v < |s.workers| && s.workers[v].Fetching? && s.workers[v].idx == k;
        assert s'.workers[v] == s.workers[v];
      }
    }
  }

  lemma StepKeeps(remote: seq<Byte>, s: State, e: Event)
    requires Inv(remote, s) && Enabled(remote, s, e)
    ensures Inv(remote, Step(remote, s, e).0)
  {
    match e
    case ReadCall(_) =>
      if s.pos < s.len {
        var (s', out) := Step(remote, s, e);
        ReadStepDelivers(remote, s, e);
        ReadKeeps(remote, s, Wanted(s, e), s', out);
      }
    case Wake =>
      var (s', out) := Step(remote, s, e);
      ReadStepDelivers(remote, s, e);
      ReadKeeps(remote, s, Wanted(s, e), s', out);
    case SeekTo(_) =>
      var s' := Step(remote, s, e).0;
      forall k | k in s'.chunks && s'.chunks[k].Downloading? ensures s'.fatal || InFlight(s', k) {
        assert s.fatal || InFlight(s, k);
      }
    case Drop =>
      var s' := Step(remote, s, e).0;
      forall k | k in s'.chunks && s'.chunks[k].Downloading? ensures s'.fatal || InFlight(s', k) {
        assert s.fatal || InFlight(s, k);
      }
    case Claim(w) => ClaimKeeps(remote, s, w);
    case Complete(w, _) => CompleteKeeps(remote, s, w);
    case Fail(w) => FailKeeps(remote, s, w);
  }

  lemma {:induction false} RunKeeps(remote: seq<Byte>, s: State, evs: seq<Event>)
    requires Inv(remote, s) && ValidRun(remote, s, evs)
    ensures Inv(remote, RunState(remote, s, evs))
    decreases |evs|
  {
    if evs != [] {
      StepKeeps(remote, s, evs[0]);
      RunKeeps(remote, Step(remote, s, evs[0]).0, evs[1..]);
    }
  }

  lemma StepDelivers(remote: seq<Byte>, s: State, h: History, e: Event)
    requires Inv(remote, s) && Enabled(remote, s, e)
    requires h.base <= s.pos && h.delivered == remote[h.base..s.pos]
    ensures var s', h' := Step(remote, s, e).0, Record(remote, s, h, e);
            h'.base <= s'.pos <= |remote| && h'.delivered == remote[h'.base..s'.pos]
  {
    if (e.ReadCall? && s.pos < s.len) || e.Wake? {
      ReadStepDelivers(remote, s, e);
      var (s', out) := Step(remote, s, e);
      if out.Bytes? { SlicesJoin(remote, h.base, s.pos, s'.pos); }
    }
  }

  lemma SlicesJoin(remote: seq<Byte>, a: nat, b: nat, c: nat)
    requires a <= b <= c <= |remote|
    ensures remote[a..c] == remote[a..b] + remote[b..c]
  {
  }

  /** Reads never skip, repeat or reorder: everything delivered since the last seek is the stretch of
      the resource between the seek target and the cursor, in every interleaving. */
  lemma {:induction false} DeliveredIsContiguous(remote: seq<Byte>, s: State, h: History, evs: seq<Event>)
    requires Inv(remote, s) && ValidRun(remote, s, evs)
    requires h.base <= s.pos && h.delivered == remote[h.base..s.pos]
    ensures var s', h' := RunState(remote, s, evs), RunHistory(remote, s, h, evs);
            h'.base <= s'.pos <= |remote| && h'.delivered == remote[h'.base..s'.pos]
    decreases |evs|
  {
    if evs != [] {
      var e := evs[0];
      var s1, h1 := Step(remote, s, e).0, Record(remote, s, h, e);
      StepKeeps(remote, s, e);
      StepDelivers(remote, s, h, e);
      DeliveredIsContiguous(remote, s1, h1, evs[1..]);
    }
  }

  /** Where a seek goes: to the position asked for, counted from the start, the cursor or the end, or to the nearest
      position inside the resource. */
  predicate Nearest(asked: int, len: nat, p: nat) {
    p == if asked < 0 then 0 else if asked > len then len else asked
  }

  predicate Lands(pos: nat, len: nat, target: SeekFrom, p: nat) {
    match target
    case Start(q) => Nearest(q, len, p)
    case Current(d) => Nearest(pos + d, len, p)
    case End(d) => Nearest(len + d, len, p)
  }

  lemma SeekLands(s: State, target: SeekFrom)
    requires s.len < U64_LIMIT
    ensures Lands(s.pos, s.len, target, SeekTarget(s, target))
  {
  }

  ghost predicate NoSeeks(evs: seq<Event>) { forall i :: 0 <= i < |evs| ==> !evs[i].SeekTo? }

  lemma {:induction false} BaseKept(remote: seq<Byte>, s: State, h: History, evs: seq<Event>)
    requires ValidRun(remote, s, evs) && NoSeeks(evs)
    ensures RunHistory(remote, s, h, evs).base == h.base
    decreases |evs|
  {
    if evs != [] {
      assert !evs[0].SeekTo?;
      BaseKept(remote, Step(remote, s, evs[0]).0, Record(remote, s, h, evs[0]), evs[1..]);
    }
  }

  /** After a seek, and until the next one, what is delivered is the stretch of the resource from where the seek went to
      the cursor, in every interleaving. */
  lemma DeliveredSinceSeek(remote: seq<Byte>, s: State, h: History, target: SeekFrom, evs: seq<Event>)
    returns (start: nat)
    requires Inv(remote, s) && Enabled(remote, s, SeekTo(target)) && NoSeeks(evs)
    requires ValidRun(remote, Step(remote, s, SeekTo(target)).0, evs)
    ensures Lands(s.pos, |remote|, target, start)
    ensures var s1, h1 := Step(remote, s, SeekTo(target)).0, Record(remote, s, h, SeekTo(target));
            var pos := RunState(remote, s1, evs).pos;
            start <= pos <= |remote| && RunHistory(remote, s1, h1, evs).delivered == remote[start..pos]
  {
    var s1, h1 := Step(remote, s, SeekTo(target)).0, Record(remote, s, h, SeekTo(target));
    start := SeekTarget(s, target);
    SeekLands(s, target);
    StepKeeps(remote, s, SeekTo(target));
    assert h1.delivered == remote[start..start];
    DeliveredIsContiguous(remote, s1, h1, evs);
    BaseKept(remote, s1, h1, evs);
  }

  /** Seeking to `k` bytes before the end and reading to the end gives the last `k` bytes. */
  lemma TailIsDelivered(remote: seq<Byte>, s: State, h: History, k: int, evs: seq<Event>)
    requires Inv(remote, s) && 0 <= k <= |remote| && Enabled(remote, s, SeekTo(End(-k))) && NoSeeks(evs)
    requires ValidRun(remote, Step(remote, s, SeekTo(End(-k))).0, evs)
    requires RunState(remote, Step(remote, s, SeekTo(End(-k))).0, evs).pos == |remote|
    ensures var s1, h1 := Step(remote, s, SeekTo(End(-k))).0, Record(remote, s, h, SeekTo(End(-k)));
            RunHistory(remote, s1, h1, evs).delivered == remote[|remote| - k..]
  {
    var start := DeliveredSinceSeek(remote, s, h, End(-k), evs);
  }

  /** Asking where the cursor is changes nothing. */
  lemma SeekingInPlace(remote: seq<Byte>, s: State)
    requires Inv(remote, s) && Enabled(remote, s, SeekTo(Current(0)))
    ensures Step(remote, s, SeekTo(Current(0))) == (s, Silent)
  {
    SeekLands(s, Current(0));
  }

  /** A parked reader is never forgotten: its chunk is present (so waking it returns), or a worker is
      fetching it, or any idle worker that looks for work takes exactly that chunk. */
  lemma WaitingReaderIsServed(remote: seq<Byte>, s: State)
    requires Inv(remote, s) && s.reader.Waiting? && !s.fatal
    ensures var c := s.pos / CHUNK_SIZE;
            || ReadLoop(s, s.reader.want).1.Bytes?
            || InFlight(s, c)
            || (ClaimTarget(s).Some? && ClaimTarget(s).value.0 == c)
  {
    ReadLoopDelivers(remote, s, s.reader.want);
  }

  // ---------------------------------------------------------------- down to the responses

  /** How many bytes a worker requests for chunk `idx`. */
  function RequestSize(len: nat, idx: nat): nat
    requires idx * CHUNK_SIZE < len
  {
    Min(CHUNK_SIZE, len - idx * CHUNK_SIZE)
  }

  /** What `fetch_chunk` makes of the response to a worker's request. */
  function FetchedBy(s: State, w: nat, res: Response): Option<seq<Byte>>
    requires w < |s.workers| && s.workers[w].Fetching? && s.workers[w].idx * CHUNK_SIZE < s.len
  {
    var idx := s.workers[w].idx;
    Fetched(res, idx * CHUNK_SIZE, RequestSize(s.len, idx))
  }

  /** What happens on the wire: a worker gets a response or none at all, and everything else as before. */
  datatype NetEvent = Local(e: Event) | Answered(w: nat, res: Response)

  /** Responses come from an honest server; nothing is assumed of what `fetch_chunk` makes of them. */
  ghost predicate NetEnabled(remote: seq<Byte>, s: State, ne: NetEvent) {
    match ne
    case Local(e) => !e.Complete? && Enabled(remote, s, e)
    case Answered(w, res) =>
      w < |s.workers| && s.workers[w].Fetching? && s.workers[w].idx * CHUNK_SIZE < s.len && Honest(remote, res)
  }

  /** The event a response amounts to. */
  ghost function Lowered(s: State, ne: NetEvent): Event
    requires ne.Answered? ==>
      ne.w < |s.workers| && s.workers[ne.w].Fetching? && s.workers[ne.w].idx * CHUNK_SIZE < s.len
  {
    match ne
    case Local(e) => e
    case Answered(w, res) =>
      var body := FetchedBy(s, w, res);
      if body.Some? then Complete(w, body.value) else Fail(w)
  }

  /** A fetch that completes brings the remote chunk: this is what the range check is for. */
  lemma NetworkRefines(remote: seq<Byte>, s: State, ne: NetEvent)
    requires Inv(remote, s) && NetEnabled(remote, s, ne)
    ensures Enabled(remote, s, Lowered(s, ne))
  {
    if ne.Answered? {
      var idx := s.workers[ne.w].idx;
      if FetchedBy(s, ne.w, ne.res).Some? {
        FetchedIsRemote(remote, ne.res, idx * CHUNK_SIZE, RequestSize(s.len, idx));
        assert idx * CHUNK_SIZE + RequestSize(s.len, idx) == Min((idx + 1) * CHUNK_SIZE, s.len);
      }
    }
  }

  /** Conversely, every completed fetch has a response behind it. */
  lemma NetworkCompletes(remote: seq<Byte>, s: State, w: nat) returns (res: Response)
    requires Inv(remote, s) && w < |s.workers| && s.workers[w].Fetching?
    ensures NetEnabled(remote, s, Answered(w, res))
    ensures s.workers[w].idx * CHUNK_SIZE < |remote|
    ensures Lowered(s, Answered(w, res)) == Complete(w, ChunkOf(remote, s.workers[w].idx))
  {
    assert GoodWorker(remote, s.workers[w]);
    var idx := s.workers[w].idx;
    PartOfIsFetched(remote, idx * CHUNK_SIZE, RequestSize(s.len, idx));
    res := PartOf(remote, idx * CHUNK_SIZE, RequestSize(s.len, idx));
    assert idx * CHUNK_SIZE + RequestSize(s.len, idx) == Min((idx + 1) * CHUNK_SIZE, s.len);
  }

  /** What an event on the wire does. */
  ghost function NetStep(remote: seq<Byte>, s: State, ne: NetEvent): State
    requires NetEnabled(remote, s, ne)
  {
    match ne
    case Local(e) => Step(remote, s, e).0
    case Answered(w, res) =>
      var body := FetchedBy(s, w, res);
      if body.Some? then CompleteStep(s, w, body.value) else FailStep(s, w)
  }

  /** A run over the wire: any events that can happen there. */
  ghost predicate NetRun(remote: seq<Byte>, s: State, nes: seq<NetEvent>)
    decreases |nes|
  {
    nes != [] ==> NetEnabled(remote, s, nes[0]) && NetRun(remote, NetStep(remote, s, nes[0]), nes[1..])
  }

  ghost function NetState(remote: seq<Byte>, s: State, nes: seq<NetEvent>): State
    requires NetRun(remote, s, nes)
    decreases |nes|
  {
    if nes == [] then s else NetState(remote, NetStep(remote, s, nes[0]), nes[1..])
  }

  /** Every run over the wire unfolds into a run, so all that holds of runs holds of it. */
  lemma {:induction false} NetRunUnfolds(remote: seq<Byte>, s: State, nes: seq<NetEvent>) returns (evs: seq<Event>)
    requires Inv(remote, s) && NetRun(remote, s, nes)
    ensures |evs| == |nes| && ValidRun(remote, s, evs)
    ensures RunState(remote, s, evs) == NetState(remote, s, nes) && Inv(remote, NetState(remote, s, nes))
    decreases |nes|
  {
    if nes == [] {
      evs := [];
    } else {
      var e := Lowered(s, nes[0]);
      NetworkRefines(remote, s, nes[0]);
      StepKeeps(remote, s, e);
      var rest := NetRunUnfolds(remote, NetStep(remote, s, nes[0]), nes[1..]);
      evs := [e] + rest;
      assert evs[1..] == rest;
    }
  }

  /** Opening a source: the probe's answer gives the length, and nothing else is known. */
  ghost predicate Opens(remote: seq<Byte>, probe: Response, s: State) {
    Honest(remote, probe) && ProbedLength(probe).Some? && ProbedLength(probe).value >= 0 &&
    s == Init(ProbedLength(probe).value)
  }

  lemma OpenedGood(remote: seq<Byte>, probe: Response, s: State)
    requires Opens(remote, probe, s)
    ensures Inv(remote, s) && s == Init(|remote|)
  {
    ProbeFindsLength(remote, probe);
  }

  /** What a read returns is right: the remote bytes at the position it was called at, at least one unless the
      buffer is empty or the end is reached. */
  ghost predicate ReadsRemote(remote: seq<Byte>, s: State, e: Event)
    requires Enabled(remote, s, e)
  {
    var (s', out) := Step(remote, s, e);
    var want := if e.ReadCall? || e.Wake? then Wanted(s, e) else 0;
    && (out.Bytes? ==>
          && s'.pos == s.pos + |out.data| <= |remote|
          && out.data == remote[s.pos..s'.pos]
          && (out.data == [] <==> want == 0 || s.pos == |remote|))
    && (out.ReadError? ==> s.fatal)
  }

  lemma StepReadsRemote(remote: seq<Byte>, s: State, e: Event)
    requires Inv(remote, s) && Enabled(remote, s, e)
    ensures ReadsRemote(remote, s, e)
  {
    if (e.ReadCall? && s.pos < s.len) || e.Wake? { ReadStepDelivers(remote, s, e); }
  }

  /** From the probe on, over any responses of an honest server and in every interleaving, every read returns the
      remote bytes at its position. */
  lemma EveryReadIsRemote(remote: seq<Byte>, probe: Response, s0: State, nes: seq<NetEvent>, e: Event)
    requires Opens(remote, probe, s0) && NetRun(remote, s0, nes)
    requires NetEnabled(remote, NetState(remote, s0, nes), Local(e))
    ensures ReadsRemote(remote, NetState(remote, s0, nes), e)
  {
    OpenedGood(remote, probe, s0);
    var evs := NetRunUnfolds(remote, s0, nes);
    StepReadsRemote(remote, NetState(remote, s0, nes), e);
  }

  // ---------------------------------------------------------------- one download per chunk

  predicate Fetches(w: Worker, k: nat) { w.Fetching? && w.idx == k }

  ghost predicate SoleDownloader(s: State, k: nat) {
    forall v, w :: 0 <= v < w < |s.workers| ==> !(Fetches(s.workers[v], k) && Fetches(s.workers[w], k))
  }

  /** At most one downloader at a time, MAX_FETCH_RETRIES + 1 attempts and one completed download. */
  ghost predicate Once(s: State, h: History, k: nat) {
    SoleDownloader(s, k) && h.claims[k] <= MAX_FETCH_RETRIES + 1 && h.fills[k] <= 1
  }

  /** Chunk `k` has been claimed, and the map no longer knows: eviction dropped its entry, and at most a waiting
      reader has put a fresh one there. */
  ghost predicate Forgotten(s: State, h: History, k: nat) {
    h.claims[k] > 0 && (k in s.chunks ==> s.chunks[k] == Empty(0))
  }

  /** What the history of chunk `k` has to do with its entry and its downloader. */
  ghost predicate Account(s: State, h: History, k: nat) {
    && Once(s, h, k)
    && (h.claims[k] == 0 ==> h.fills[k] == 0)
    && (forall w :: 0 <= w < |s.workers| && Fetches(s.workers[w], k) ==>
          && h.claims[k] == s.workers[w].retries + 1 && h.fills[k] == 0
          && (k in s.chunks ==> s.chunks[k] == Downloading || s.chunks[k] == Empty(0)))
    && (k in s.chunks && s.chunks[k].Empty? && s.chunks[k].retries > 0 ==>
          h.claims[k] == s.chunks[k].retries && h.fills[k] == 0)
  }

  /** A worker claims chunk `k` although it is forgotten. */
  ghost predicate Reclaims(s: State, h: History, e: Event, k: nat) {
    e.Claim? && ClaimTarget(s).Some? && ClaimTarget(s).value.0 == k && Forgotten(s, h, k)
  }

  lemma ReadKeepsAccount(remote: seq<Byte>, s: State, h: History, want: nat, s': State, out: Output, k: nat)
    requires Inv(remote, s) && s.pos < s.len && ReadEffect(remote, s, want, s', out) && Account(s, h, k)
    ensures Account(s', RecordOutput(s, h, out), k)
  {
  }

  lemma ClaimKeepsAccount(remote: seq<Byte>, s: State, h: History, w: nat, idx: nat, r: nat, k: nat)
    requires Inv(remote, s) && Account(s, h, k) && w < |s.workers| && s.workers[w].Idle?
    requires (idx !in s.chunks ==> r == 0) && (idx in s.chunks ==> s.chunks[idx] == Empty(r))
    requires idx == k ==> !Forgotten(s, h, k)
    ensures Account(s.(chunks := s.chunks[idx := Downloading], workers := s.workers[w := Fetching(idx, r)]),
                    h.(claims := h.claims + multiset{idx}), k)
  {
    assert idx in s.chunks ==> GoodChunk(remote, idx, s.chunks[idx]);
  }

  /** A fetch that ends, well or badly, changes the entry and the account of its own chunk only. */
  lemma CompleteKeepsAccount(s: State, h: History, w: nat, body: seq<Byte>, k: nat)
    requires Account(s, h, k) && w < |s.workers| && s.workers[w].Fetching?
    ensures Account(CompleteStep(s, w, body), h.(fills := h.fills + multiset{s.workers[w].idx}), k)
  {
  }

  lemma FailKeepsAccount(s: State, h: History, w: nat, k: nat)
    requires Account(s, h, k) && w < |s.workers| && s.workers[w].Fetching?
    ensures Account(FailStep(s, w), h, k)
  {
  }

  /** Every step keeps the account of every chunk, except claiming a forgotten one. */
  lemma StepKeepsAccount(remote: seq<Byte>, s: State, h: History, e: Event, k: nat)
    requires Inv(remote, s) && Enabled(remote, s, e) && Account(s, h, k) && !Reclaims(s, h, e, k)
    ensures Account(Step(remote, s, e).0, Record(remote, s, h, e), k)
  {
    match e
    case Claim(w) =>
      ClaimTargetWindow(s);
      var t := ClaimTarget(s);
      if t.Some? { ClaimKeepsAccount(remote, s, h, w, t.value.0, t.value.1, k); }
    case Complete(w, body) => CompleteKeepsAccount(s, h, w, body, k);
    case Fail(w) => FailKeepsAccount(s, h, w, k);
    case SeekTo(_) =>
    case Drop =>
    case _ =>
      if s.pos < s.len {
        var (s', out) := Step(remote, s, e);
        ReadStepDelivers(remote, s, e);
        ReadKeepsAccount(remote, s, h, Wanted(s, e), s', out, k);
      }
  }

  ghost predicate EverReclaims(remote: seq<Byte>, s: State, h: History, evs: seq<Event>, k: nat)
    requires ValidRun(remote, s, evs)
    decreases |evs|
  {
    evs != [] &&
    (|| Reclaims(s, h, evs[0], k)
     || EverReclaims(remote, Step(remote, s, evs[0]).0, Record(remote, s, h, evs[0]), evs[1..], k))
  }

  /** In every run, whatever the seeks: as long as chunk `k` is not claimed while forgotten, it has at most one
      downloader at a time, at most MAX_FETCH_RETRIES + 1 attempts and at most one completed download. */
  lemma {:induction false} OnceUnlessReclaimed(remote: seq<Byte>, s: State, h: History, evs: seq<Event>, k: nat)
    requires Inv(remote, s) && Account(s, h, k) && ValidRun(remote, s, evs) && !EverReclaims(remote, s, h, evs, k)
    ensures Account(RunState(remote, s, evs), RunHistory(remote, s, h, evs), k)
    decreases |evs|
  {
    if evs != [] {
      StepKeeps(remote, s, evs[0]);
      StepKeepsAccount(remote, s, h, evs[0], k);
      OnceUnlessReclaimed(remote, Step(remote, s, evs[0]).0, Record(remote, s, h, evs[0]), evs[1..], k);
    }
  }

  // ---------------------------------------------------------------- seeks above the eviction floor

  /** Seeks that stay at or above everything eviction has dropped. Forward seeks always do. */
  ghost predicate AboveFloor(s: State, h: History, e: Event) {
    e.SeekTo? ==> SeekTarget(s, e.target) / CHUNK_SIZE >= h.floor
  }

  ghost predicate OneDownloader(s: State) { forall k: nat :: SoleDownloader(s, k) }

  ghost predicate DownloadedOnce(h: History) {
    forall k: nat {:trigger h.claims[k]} {:trigger h.fills[k]} ::
      h.claims[k] <= MAX_FETCH_RETRIES + 1 && h.fills[k] <= 1
  }

  /** Every account is in order, and only chunks below the floor are forgotten. */
  ghost predicate Accounted(s: State, h: History) {
    && h.floor <= s.pos / CHUNK_SIZE
    && (forall k: nat :: Account(s, h, k))
    && (forall k: nat :: Forgotten(s, h, k) ==> k < h.floor)
  }

  lemma ForgottenBelowFloor(remote: seq<Byte>, s: State, h: History, e: Event, k: nat)
    requires Inv(remote, s) && Enabled(remote, s, e) && Accounted(s, h) && AboveFloor(s, h, e)
    requires Forgotten(Step(remote, s, e).0, Record(remote, s, h, e), k)
    ensures k < Record(remote, s, h, e).floor
  {
    if e.ReadCall? || e.Wake? {
      if s.pos < s.len {
        var (s', out) := Step(remote, s, e);
        ReadStepDelivers(remote, s, e);
        ReadForgetsBelow(remote, s, h, Wanted(s, e), s', out, k);
      } else {
        assert Forgotten(s, h, k);
      }
    } else {
      OthersForgetNothing(remote, s, h, e, k);
      assert Forgotten(s, h, k);
    }
  }

  lemma OthersForgetNothing(remote: seq<Byte>, s: State, h: History, e: Event, k: nat)
    requires Inv(remote, s) && Enabled(remote, s, e) && Account(s, h, k) && !e.ReadCall? && !e.Wake?
    requires Forgotten(Step(remote, s, e).0, Record(remote, s, h, e), k)
    ensures Forgotten(s, h, k)
  {
    ClaimTargetWindow(s);
  }

  /** A read forgets at most what it evicts. */
  lemma ReadForgetsBelow(remote: seq<Byte>, s: State, h: History, want: nat, s': State, out: Output, k: nat)
    requires Inv(remote, s) && s.pos < s.len && ReadEffect(remote, s, want, s', out) && Accounted(s, h)
    requires Forgotten(s', RecordOutput(s, h, out), k)
    ensures k < RecordOutput(s, h, out).floor
  {
    if Forgotten(s, h, k) {
      assert k < h.floor;
    } else {
      assert k in s.chunks && k !in s'.chunks;
    }
  }

  lemma FloorStaysBelow(remote: seq<Byte>, s: State, h: History, e: Event)
    requires Inv(remote, s) && Enabled(remote, s, e) && Accounted(s, h) && AboveFloor(s, h, e)
    ensures Record(remote, s, h, e).floor <= Step(remote, s, e).0.pos / CHUNK_SIZE
  {
    if (e.ReadCall? || e.Wake?) && s.pos < s.len { ReadStepDelivers(remote, s, e); }
  }

  lemma StepKeepsAccounts(remote: seq<Byte>, s: State, h: History, e: Event)
    requires Inv(remote, s) && Enabled(remote, s, e) && Accounted(s, h) && AboveFloor(s, h, e)
    ensures Accounted(Step(remote, s, e).0, Record(remote, s, h, e))
  {
    var s', h' := Step(remote, s, e).0, Record(remote, s, h, e);
    FloorStaysBelow(remote, s, h, e);
    forall k: nat ensures Account(s', h', k) {
      if e.Claim? { ClaimTargetWindow(s); }
      StepKeepsAccount(remote, s, h, e, k);
    }
    forall k: nat | Forgotten(s', h', k) ensures k < h'.floor { ForgottenBelowFloor(remote, s, h, e, k); }
  }

  ghost predicate StaysAboveFloor(remote: seq<Byte>, s: State, h: History, evs: seq<Event>)
    requires ValidRun(remote, s, evs)
    decreases |evs|
  {
    evs != [] ==>
      && AboveFloor(s, h, evs[0])
      && StaysAboveFloor(remote, Step(remote, s, evs[0]).0, Record(remote, s, h, evs[0]), evs[1..])
  }

  /** In every run whose seeks stay above the eviction floor, every chunk has at most one downloader at a
      time, at most MAX_FETCH_RETRIES + 1 attempts and at most one completed download. */
  lemma {:induction false} OneDownloadPerChunk(remote: seq<Byte>, s: State, h: History, evs: seq<Event>)
    requires Inv(remote, s) && Accounted(s, h)
    requires ValidRun(remote, s, evs) && StaysAboveFloor(remote, s, h, evs)
    ensures var s', h' := RunState(remote, s, evs), RunHistory(remote, s, h, evs);
            OneDownloader(s') && DownloadedOnce(h')
    decreases |evs|
  {
    if evs == [] {
      forall k: nat ensures SoleDownloader(s, k) { assert Account(s, h, k); }
      forall k: nat ensures h.claims[k] <= MAX_FETCH_RETRIES + 1 && h.fills[k] <= 1 { assert Account(s, h, k); }
    } else {
      StepKeeps(remote, s, evs[0]);
      StepKeepsAccounts(remote, s, h, evs[0]);
      OneDownloadPerChunk(remote, Step(remote, s, evs[0]).0, Record(remote, s, h, evs[0]), evs[1..]);
    }
  }

  lemma InitAccounted(len: nat)
    ensures Accounted(Init(len), NO_HISTORY)
  {
  }

  // ---------------------------------------------------------------- when a seek repeats a download

  predicate ByWorkers(evs: seq<Event>) {
    forall i :: 0 <= i < |evs| ==> evs[i].Claim? || evs[i].Complete? || evs[i].Fail?
  }

  /** Seeking to chunk `k` can, by what the workers do next, give it a second downloader, too many attempts or a
      second completed download. */
  ghost predicate SeekRepeats(remote: seq<Byte>, s: State, h: History, k: nat) {
    exists evs {:trigger Repeats(remote, s, h, k, evs)} :: Repeats(remote, s, h, k, evs)
  }

  ghost predicate Repeats(remote: seq<Byte>, s: State, h: History, k: nat, evs: seq<Event>) {
    var seek := SeekTo(Start(k * CHUNK_SIZE));
    && ByWorkers(evs) && Enabled(remote, s, seek)
    && var s1, h1 := Step(remote, s, seek).0, Record(remote, s, h, seek);
       && ValidRun(remote, s1, evs)
       && !Once(RunState(remote, s1, evs), RunHistory(remote, s1, h1, evs), k)
  }

  /** Workers alone never forget a chunk. */
  lemma {:induction false} WorkersKeepAccount(remote: seq<Byte>, s: State, h: History, evs: seq<Event>, k: nat)
    requires Inv(remote, s) && Account(s, h, k) && !Forgotten(s, h, k) && ByWorkers(evs) && ValidRun(remote, s, evs)
    ensures Account(RunState(remote, s, evs), RunHistory(remote, s, h, evs), k)
    decreases |evs|
  {
    if evs != [] {
      StepKeeps(remote, s, evs[0]);
      StepKeepsAccount(remote, s, h, evs[0], k);
      if Forgotten(Step(remote, s, evs[0]).0, Record(remote, s, h, evs[0]), k) {
        OthersForgetNothing(remote, s, h, evs[0], k);
      }
      WorkersKeepAccount(remote, Step(remote, s, evs[0]).0, Record(remote, s, h, evs[0]), evs[1..], k);
    }
  }

  /** One event, then a run. */
  lemma RunCons(remote: seq<Byte>, s: State, h: History, e: Event, evs: seq<Event>)
    requires Enabled(remote, s, e) && ValidRun(remote, Step(remote, s, e).0, evs)
    ensures ValidRun(remote, s, [e] + evs)
    ensures RunState(remote, s, [e] + evs) == RunState(remote, Step(remote, s, e).0, evs)
    ensures RunHistory(remote, s, h, [e] + evs) ==
            RunHistory(remote, Step(remote, s, e).0, Record(remote, s, h, e), evs)
  {
    assert ([e] + evs)[1..] == evs;
  }

  /** The cursor is at chunk `k`, which any worker may claim as if for the first time. */
  ghost predicate Claimable(remote: seq<Byte>, s: State, k: nat, r: nat) {
    Inv(remote, s) && s.currentPos == k * CHUNK_SIZE && !s.terminated && TryClaim(s, k) == Some((k, r))
  }

  lemma ClaimsCursor(remote: seq<Byte>, s: State, h: History, w: nat, k: nat, r: nat)
    requires Claimable(remote, s, k, r) && w < |s.workers| && s.workers[w].Idle?
    ensures Enabled(remote, s, Claim(w))
    ensures var s', h' := Step(remote, s, Claim(w)).0, Record(remote, s, h, Claim(w));
            && Inv(remote, s') && s'.len == s.len
            && s' == s.(chunks := s.chunks[k := Downloading], workers := s.workers[w := Fetching(k, r)])
            && h' == h.(claims := h.claims + multiset{k})
  {
    StepKeeps(remote, s, Claim(w));
  }

  /** Claiming and failing until the retries are used up. */
  lemma {:induction false} UseUpRetries(remote: seq<Byte>, s: State, h: History, w: nat, k: nat, r: nat)
    returns (evs: seq<Event>)
    requires Claimable(remote, s, k, r) && w < |s.workers| && s.workers[w].Idle? && r <= MAX_FETCH_RETRIES
    ensures ByWorkers(evs) && ValidRun(remote, s, evs)
    ensures RunHistory(remote, s, h, evs).claims[k] == h.claims[k] + MAX_FETCH_RETRIES + 1 - r
    decreases MAX_FETCH_RETRIES - r
  {
    ClaimsCursor(remote, s, h, w, k, r);
    var s1, h1 := Step(remote, s, Claim(w)).0, Record(remote, s, h, Claim(w));
    var s2, h2 := Step(remote, s1, Fail(w)).0, Record(remote, s1, h1, Fail(w));
    StepKeeps(remote, s1, Fail(w));
    var rest := [];
    if r < MAX_FETCH_RETRIES {
      rest := UseUpRetries(remote, s2, h2, w, k, r + 1);
    }
    RunCons(remote, s1, h1, Fail(w), rest);
    RunCons(remote, s, h, Claim(w), [Fail(w)] + rest);
    evs := [Claim(w)] + ([Fail(w)] + rest);
  }

  /** Downloading the chunk at the cursor. */
  lemma DownloadCursor(remote: seq<Byte>, s: State, h: History, w: nat, k: nat, r: nat) returns (evs: seq<Event>)
    requires Claimable(remote, s, k, r) && w < |s.workers| && s.workers[w].Idle?
    ensures ByWorkers(evs) && ValidRun(remote, s, evs)
    ensures RunHistory(remote, s, h, evs).fills == h.fills + multiset{k}
    ensures RunHistory(remote, s, h, evs) == h.(claims := h.claims + multiset{k}, fills := h.fills + multiset{k})
    ensures RunState(remote, s, evs) == s.(chunks := s.chunks[k := Ready(ChunkOf(remote, k))])
  {
    ClaimsCursor(remote, s, h, w, k, r);
    var s1, h1 := Step(remote, s, Claim(w)).0, Record(remote, s, h, Claim(w));
    var e := Complete(w, ChunkOf(remote, k));
    RunCons(remote, s1, h1, e, []);
    RunCons(remote, s, h, Claim(w), [e]);
    evs := [Claim(w)] + ([e] + []);
    assert [e] + [] == [e];
    assert s.workers[w := Fetching(k, r)][w := Idle] == s.workers;
    assert s.chunks[k := Downloading][k := Ready(ChunkOf(remote, k))] == s.chunks[k := Ready(ChunkOf(remote, k))];
  }

  /** A worker that is busy with another chunk can become idle without touching chunk `k`. */
  lemma FreeWorker(remote: seq<Byte>, s: State, h: History, w: nat, k: nat, r: nat) returns (evs: seq<Event>)
    requires Claimable(remote, s, k, r) && w < |s.workers| && !Fetches(s.workers[w], k)
    ensures |evs| <= 1 && ByWorkers(evs) && ValidRun(remote, s, evs) && RunHistory(remote, s, h, evs) == h
    ensures var s' := RunState(remote, s, evs); Claimable(remote, s', k, r) && s'.workers == s.workers[w := Idle]
  {
    if s.workers[w].Idle? {
      evs := [];
      assert s.workers[w := Idle] == s.workers;
    } else {
      evs := [Fail(w)];
      StepKeeps(remote, s, Fail(w));
      assert [Fail(w)][1..] == [];
    }
  }

  /** From every state in which chunk `k` is forgotten and the cursor is on it: if it is still in flight it gets a
      second downloader, if it had been downloaded it is downloaded again, and otherwise its retries start anew. */
  lemma ForgottenIsRepeated(remote: seq<Byte>, s: State, h: History, k: nat) returns (evs: seq<Event>)
    requires Inv(remote, s) && Account(s, h, k) && Forgotten(s, h, k)
    requires s.currentPos == k * CHUNK_SIZE < s.len && !s.terminated
    ensures ByWorkers(evs) && ValidRun(remote, s, evs)
    ensures var s', h' := RunState(remote, s, evs), RunHistory(remote, s, h, evs);
            if InFlight(s, k) then !SoleDownloader(s', k)
            else if h.fills[k] == 1 then h'.fills[k] == 2
            else h'.claims[k] > MAX_FETCH_RETRIES + 1
  {
    assert Claimable(remote, s, k, 0);
    if InFlight(s, k) {
      evs := ClaimTwice(remote, s, h, k);
    } else {
      assert !Fetches(s.workers[0], k);
      evs := ClaimAnew(remote, s, h, k);
    }
  }

  lemma ClaimTwice(remote: seq<Byte>, s: State, h: History, k: nat) returns (evs: seq<Event>)
    requires Claimable(remote, s, k, 0) && InFlight(s, k) && SoleDownloader(s, k)
    ensures ByWorkers(evs) && ValidRun(remote, s, evs) && !SoleDownloader(RunState(remote, s, evs), k)
  {
    var v :| 0 <= v < |s.workers| && s.workers[v].Fetching? && s.workers[v].idx == k;
    var w := if v == 0 then 1 else 0;
    var free := FreeWorker(remote, s, h, w, k, 0);
    var s1 := RunState(remote, s, free);
    ClaimsCursor(remote, s1, h, w, k, 0);
    RunCons(remote, s1, h, Claim(w), []);
    RunAppend(remote, s, h, free, [Claim(w)]);
    evs := free + [Claim(w)];
    assert [Claim(w)] + [] == [Claim(w)];
    var s2 := RunState(remote, s, evs);
    assert Fetches(s2.workers[v], k) && Fetches(s2.workers[w], k);
  }

  lemma ClaimAnew(remote: seq<Byte>, s: State, h: History, k: nat) returns (evs: seq<Event>)
    requires Claimable(remote, s, k, 0) && !Fetches(s.workers[0], k)
    ensures ByWorkers(evs) && ValidRun(remote, s, evs)
    ensures var h' := RunHistory(remote, s, h, evs);
            if h.fills[k] == 1 then h'.fills[k] == 2 else h'.claims[k] == h.claims[k] + MAX_FETCH_RETRIES + 1
  {
    var free := FreeWorker(remote, s, h, 0, k, 0);
    var s1 := RunState(remote, s, free);
    var rest;
    if h.fills[k] == 1 { rest := DownloadCursor(remote, s1, h, 0, k, 0); }
    else { rest := UseUpRetries(remote, s1, h, 0, k, 0); }
    RunAppend(remote, s, h, free, rest);
    evs := free + rest;
  }

  lemma {:induction false} RunAppend(remote: seq<Byte>, s: State, h: History, a: seq<Event>, b: seq<Event>)
    requires ValidRun(remote, s, a) && ValidRun(remote, RunState(remote, s, a), b)
    ensures ValidRun(remote, s, a + b)
    ensures RunState(remote, s, a + b) == RunState(remote, RunState(remote, s, a), b)
    ensures RunHistory(remote, s, h, a + b) ==
            RunHistory(remote, RunState(remote, s, a), RunHistory(remote, s, h, a), b)
    decreases |a|
  {
    if a == [] {
      assert a + b == b;
    } else {
      RunAppend(remote, Step(remote, s, a[0]).0, Record(remote, s, h, a[0]), a[1..], b);
      assert (a + b)[1..] == a[1..] + b;
    }
  }

  /** A seek to chunk `k` can repeat its download if and only if the chunk is forgotten: claimed before, and dropped
      from the map. */
  lemma SeekRepeatsIffForgotten(remote: seq<Byte>, s: State, h: History, k: nat)
    requires Inv(remote, s) && Account(s, h, k) && s.reader.Resting? && !s.terminated && k * CHUNK_SIZE < s.len
    ensures SeekRepeats(remote, s, h, k) <==> Forgotten(s, h, k)
  {
    var seek := SeekTo(Start(k * CHUNK_SIZE));
    var s1, h1 := Step(remote, s, seek).0, Record(remote, s, h, seek);
    StepKeeps(remote, s, seek);
    StepKeepsAccount(remote, s, h, seek, k);
    if Forgotten(s, h, k) {
      var evs := ForgottenIsRepeated(remote, s1, h1, k);
      assert Repeats(remote, s, h, k, evs);
    } else {
      forall evs | Repeats(remote, s, h, k, evs) ensures false {
        WorkersKeepAccount(remote, s1, h1, evs, k);
      }
    }
  }

  /** Forgotten chunks occur: claim chunk 0, read from chunk 3. Chunk 0 is then still in flight or, if `done`, was
      downloaded before. */
  lemma ForgottenIsReachable(remote: seq<Byte>, done: bool) returns (evs: seq<Event>)
    requires 3 * CHUNK_SIZE < |remote| < U64_LIMIT
    ensures ValidRun(remote, Init(|remote|), evs)
    ensures var s, h := RunState(remote, Init(|remote|), evs), RunHistory(remote, Init(|remote|), NO_HISTORY, evs);
            && Forgotten(s, h, 0) && s.reader.Resting? && !s.terminated
            && (if done then h.fills[0] == 1 else InFlight(s, 0))
  {
    var s0, h0 := Init(|remote|), NO_HISTORY;
    var first := StartOfRun(remote, done);
    var s1, h1 := RunState(remote, s0, first), RunHistory(remote, s0, h0, first);
    RunKeeps(remote, s0, first);
    var rest := ReadFarAhead(remote, s1, h1);
    RunAppend(remote, s0, h0, first, rest);
    evs := first + rest;
  }

  /** Claim chunk 0 and, if `done`, download it. */
  lemma StartOfRun(remote: seq<Byte>, done: bool) returns (evs: seq<Event>)
    requires 1 <= |remote| < U64_LIMIT
    ensures Inv(remote, Init(|remote|)) && ValidRun(remote, Init(|remote|), evs)
    ensures var s, h := RunState(remote, Init(|remote|), evs), RunHistory(remote, Init(|remote|), NO_HISTORY, evs);
            && s.reader.Resting? && !s.terminated && !s.fatal && s.chunks.Keys == {0}
            && |s.workers| == MAX_CONCURRENT_FETCHES && s.workers[1].Idle?
            && h.claims[0] == 1 && (if done then h.fills[0] == 1 else Fetches(s.workers[0], 0))
  {
    var s := Init(|remote|);
    assert Claimable(remote, s, 0, 0);
    if done {
      evs := DownloadCursor(remote, s, NO_HISTORY, 0, 0, 0);
    } else {
      ClaimsCursor(remote, s, NO_HISTORY, 0, 0, 0);
      RunCons(remote, s, NO_HISTORY, Claim(0), []);
      evs := [Claim(0)] + [];
    }
  }

  /** Seek to chunk 3, download it and read a byte: chunk 0 is evicted. */
  lemma ReadFarAhead(remote: seq<Byte>, s: State, h: History) returns (evs: seq<Event>)
    requires Inv(remote, s) && 3 * CHUNK_SIZE < |remote|
    requires s.reader.Resting? && !s.terminated && !s.fatal && s.chunks.Keys == {0} && s.workers[1].Idle?
    ensures ValidRun(remote, s, evs)
    ensures var s', h' := RunState(remote, s, evs), RunHistory(remote, s, h, evs);
            && 0 !in s'.chunks && s'.workers == s.workers && s'.reader.Resting? && !s'.terminated
            && h'.claims[0] == h.claims[0] && h'.fills[0] == h.fills[0]
  {
    var seek := SeekTo(Start(3 * CHUNK_SIZE));
    var s1, h1 := Step(remote, s, seek).0, Record(remote, s, h, seek);
    StepKeeps(remote, s, seek);
    assert Claimable(remote, s1, 3, 0);
    var rest := FetchAndRead(remote, s1, h1);
    RunCons(remote, s, h, seek, rest);
    evs := [seek] + rest;
  }

  lemma FetchAndRead(remote: seq<Byte>, s: State, h: History) returns (evs: seq<Event>)
    requires Claimable(remote, s, 3, 0) && s.pos == 3 * CHUNK_SIZE < |remote|
    requires s.reader.Resting? && !s.fatal && s.workers[1].Idle?
    ensures ValidRun(remote, s, evs)
    ensures var s', h' := RunState(remote, s, evs), RunHistory(remote, s, h, evs);
            && 0 !in s'.chunks && s'.workers == s.workers && s'.reader.Resting? && !s'.terminated
            && h'.claims[0] == h.claims[0] && h'.fills[0] == h.fills[0]
  {
    var read := ReadCall(1);
    var fetch := DownloadCursor(remote, s, h, 1, 3, 0);
    var s1, h1 := RunState(remote, s, fetch), RunHistory(remote, s, h, fetch);
    RunKeeps(remote, s, fetch);
    ReadStepDelivers(remote, s1, read);
    RunCons(remote, s1, h1, read, []);
    assert [read] + [] == [read];
    RunAppend(remote, s, h, fetch, [read]);
    evs := fetch + [read];
  }

  // ---------------------------------------------------------------- bounded memory, forward only

  ghost predicate Forward(s: State, e: Event) {
    e.SeekTo? ==> SeekTarget(s, e.target) >= s.pos
  }

  ghost predicate ForwardRun(remote: seq<Byte>, s: State, evs: seq<Event>)
    requires ValidRun(remote, s, evs)
    decreases |evs|
  {
    evs != [] ==> Forward(s, evs[0]) && ForwardRun(remote, Step(remote, s, evs[0]).0, evs[1..])
  }

  /** Nothing the run knows about lies beyond the prefetch window. */
  ghost predicate InWindow(s: State) {
    && (forall k :: k in s.chunks ==> k < s.pos / CHUNK_SIZE + PREFETCH_CHUNKS)
    && (forall w :: 0 <= w < |s.workers| && s.workers[w].Fetching? ==>
          s.workers[w].idx < s.pos / CHUNK_SIZE + PREFETCH_CHUNKS)
  }

  lemma ReadKeepsWindow(remote: seq<Byte>, s: State, want: nat, s': State, out: Output)
    requires Inv(remote, s) && s.pos < s.len && ReadEffect(remote, s, want, s', out) && InWindow(s)
    ensures InWindow(s')
  {
  }

  lemma StepKeepsWindow(remote: seq<Byte>, s: State, e: Event)
    requires Inv(remote, s) && Enabled(remote, s, e) && InWindow(s) && Forward(s, e)
    ensures InWindow(Step(remote, s, e).0)
  {
    ClaimTargetWindow(s);
    if (e.ReadCall? && s.pos < s.len) || e.Wake? {
      var (s', out) := Step(remote, s, e);
      ReadStepDelivers(remote, s, e);
      ReadKeepsWindow(remote, s, Wanted(s, e), s', out);
    }
  }

  lemma {:induction false} ForwardRunKeeps(remote: seq<Byte>, s: State, h: History, evs: seq<Event>)
    requires Inv(remote, s) && InWindow(s) && Accounted(s, h)
    requires ValidRun(remote, s, evs) && ForwardRun(remote, s, evs)
    ensures InWindow(RunState(remote, s, evs)) && StaysAboveFloor(remote, s, h, evs)
    decreases |evs|
  {
    if evs != [] {
      StepKeeps(remote, s, evs[0]);
      StepKeepsWindow(remote, s, evs[0]);
      StepKeepsAccounts(remote, s, h, evs[0]);
      ForwardRunKeeps(remote, Step(remote, s, evs[0]).0, Record(remote, s, h, evs[0]), evs[1..]);
    }
  }

  /** The chunks kept by a read of chunk `c`. */
  ghost predicate FewChunks(s: State, c: nat) {
    && (forall k :: k in s.chunks ==> c - 1 <= k < c + PREFETCH_CHUNKS)
    && |s.chunks| <= PREFETCH_CHUNKS + 1
  }

  lemma ReadLeavesFewChunks(remote: seq<Byte>, s: State, want: nat, s': State, out: Output)
    requires Inv(remote, s) && s.pos < s.len && ReadEffect(remote, s, want, s', out) && InWindow(s)
    requires out.Bytes? && s.pos / CHUNK_SIZE > 1
    ensures FewChunks(s', s.pos / CHUNK_SIZE)
  {
    var c := s.pos / CHUNK_SIZE;
    var near := {c - 1, c, c + 1, c + 2, c + 3};
    assert s'.chunks.Keys <= near;
    SubsetSize(s'.chunks.Keys, near);
  }

  /** A run from the start that never seeks backwards downloads every chunk once, and after any
      successful read beyond chunk 1 the map holds at most PREFETCH_CHUNKS + 1 chunks, all within one
      behind and PREFETCH_CHUNKS - 1 ahead of the chunk just read. */
  lemma ForwardRunIsFrugal(remote: seq<Byte>, probe: Response, s0: State, evs: seq<Event>, e: Event)
    requires Opens(remote, probe, s0) && ValidRun(remote, s0, evs) && ForwardRun(remote, s0, evs)
    requires Enabled(remote, RunState(remote, s0, evs), e) && (e.ReadCall? || e.Wake?)
    ensures OneDownloader(RunState(remote, s0, evs))
    ensures DownloadedOnce(RunHistory(remote, s0, NO_HISTORY, evs))
    ensures var s := RunState(remote, s0, evs);
            var (s', out) := Step(remote, s, e);
            out.Bytes? && s.pos < s.len && s.pos / CHUNK_SIZE > 1 ==> FewChunks(s', s.pos / CHUNK_SIZE)
  {
    OpenedGood(remote, probe, s0);
    InitAccounted(|remote|);
    assert InWindow(s0);
    ForwardRunKeeps(remote, s0, NO_HISTORY, evs);
    OneDownloadPerChunk(remote, s0, NO_HISTORY, evs);
    RunKeeps(remote, s0, evs);
    var s := RunState(remote, s0, evs);
    var (s', out) := Step(remote, s, e);
    if out.Bytes? && s.pos < s.len && s.pos / CHUNK_SIZE > 1 {
      ReadStepDelivers(remote, s, e);
      ReadLeavesFewChunks(remote, s, Wanted(s, e), s', out);
    }
  }

  lemma {:induction false} SubsetSize<T>(a: set<T>, b: set<T>)
    requires a <= b
    ensures |a| <= |b|
    decreases a
  {
    if a != {} {
      var x :| x in a;
      SubsetSize(a - {x}, b - {x});
    }
  }

  // ---------------------------------------------------------------- the shared object

  /** The source itself: each method is one critical section, proved to be the step above. */
  class SegmentedSource {
    var pos: nat
    const len: nat
    var currentPos: nat
    var chunks: map<nat, ChunkState>
    var fatal: bool
    var terminated: bool
    var reader: Reader
    var workers: seq<Worker>

    ghost function View(): State
      reads this
    {
      State(pos, len, currentPos, chunks, fatal, terminated, reader, workers)
    }

    constructor (len: nat)
      ensures View() == Init(len)
    {
      this.len := len;
      pos, currentPos, chunks := 0, 0, map[0 := Empty(0)];
      fatal, terminated, reader := false, false, Resting;
      workers := seq(MAX_CONCURRENT_FETCHES, _ => Idle);
    }

    /** The loop of `read`, from taking the lock to returning or waiting on the condition variable. */
    method RunReadLoop(want: nat) returns (out: Output)
      modifies this
      ensures (View(), out) == ReadLoop(old(View()), want)
    {
      while true
        invariant ReadLoop(View(), want) == ReadLoop(old(View()), want)
        decreases ReadyFrom(chunks, pos / CHUNK_SIZE), pos / CHUNK_SIZE !in chunks
      {
        if fatal {
          reader := Resting;
          return ReadError;
        }
        var c, offset := pos / CHUNK_SIZE, pos % CHUNK_SIZE;
        if c !in chunks {
          ghost var before := ReadyFrom(chunks, c);
          chunks := chunks[c := Empty(0)];
          assert ReadyFrom(chunks, c) == before;
        } else if chunks[c].Ready? {
          var bytes := chunks[c].bytes;
          var available := if |bytes| >= offset then |bytes| - offset else 0;
          if available == 0 {
            SkipChunk(want);
          } else {
            out := Deliver(want, c, bytes, offset);
            return;
          }
        } else {
          reader := Waiting(want);
          return Parked;
        }
      }
    }

    /** Go on behind a chunk that has nothing left. */
    method SkipChunk(ghost want: nat)
      requires var c := pos / CHUNK_SIZE;
               !fatal && c in chunks && chunks[c].Ready? && |chunks[c].bytes| <= pos % CHUNK_SIZE
      modifies this`pos, this`currentPos
      ensures ReadLoop(View(), want) == ReadLoop(old(View()), want)
      ensures ReadyFrom(chunks, pos / CHUNK_SIZE) < ReadyFrom(chunks, old(pos) / CHUNK_SIZE)
    {
      var c := pos / CHUNK_SIZE;
      assert c in ReadyFrom(chunks, c) && c !in ReadyFrom(chunks, c + 1);
      pos := (c + 1) * CHUNK_SIZE;
      currentPos := pos;
    }

    /** Copy from the chunk, move on and evict what lies behind. */
    method Deliver(want: nat, c: nat, bytes: seq<Byte>, offset: nat) returns (out: Output)
      requires offset < |bytes|
      modifies this`pos, this`currentPos, this`reader, this`chunks
      ensures var n := Min(want, |bytes| - offset);
              && out == Bytes(bytes[offset..offset + n])
              && pos == currentPos == old(pos) + n && reader == Resting && chunks == Evict(old(chunks), c)
    {
      var n := Min(want, |bytes| - offset);
      out := Bytes(bytes[offset..offset + n]);
      pos := pos + n;
      currentPos := pos;
      reader := Resting;
      if c > 1 {
        chunks := map k | k in chunks && k >= c - 1 :: chunks[k];
      }
    }

    method Read(want: nat) returns (out: Output)
      requires reader.Resting?
      modifies this
      ensures (View(), out) == ReadCallStep(old(View()), want)
    {
      if pos >= len {
        return Bytes([]);
      }
      currentPos := pos;
      out := RunReadLoop(want);
    }

    method Seek(target: SeekFrom) returns (newPos: nat)
      modifies this
      ensures newPos == SeekTarget(old(View()), target)
      ensures len < U64_LIMIT ==> Lands(old(pos), len, target, newPos)
      ensures View() == old(View()).(pos := newPos, currentPos := newPos)
    {
      newPos := match target
        case Start(p) => p
        case Current(d) => SaturatingAdd(pos, d)
        case End(d) => SaturatingAdd(len, d);
      newPos := Min(newPos, len);
      if len < U64_LIMIT { SeekLands(View(), target); }
      pos := newPos;
      currentPos := newPos;
    }

    /** The claiming section of `fetch_worker`. */
    method ClaimChunk(w: nat) returns (claimed: bool)
      requires w < |workers|
      modifies this
      ensures View() == ClaimStep(old(View()), w)
      ensures claimed <==> ClaimTarget(old(View())).Some?
    {
      var cur := currentPos / CHUNK_SIZE;
      var target := TryClaimChunk(cur);
      if target.None? {
        var window := if cur in chunks && chunks[cur].Ready? then PREFETCH_CHUNKS else 2;
        var j := 1;
        while j < window
          invariant 1 <= j <= window && target.None? && View() == old(View())
          invariant ScanAhead(View(), cur, 1, window) == ScanAhead(View(), cur, j, window)
        {
          if (cur + j) * CHUNK_SIZE >= len {
            break;
          }
          target := TryClaimChunk(cur + j);
          if target.Some? {
            break;
          }
          j := j + 1;
        }
      }
      claimed := target.Some?;
      if claimed {
        var (idx, r) := target.value;
        chunks := chunks[idx := Downloading];
        workers := workers[w := Fetching(idx, r)];
      }
    }

    method TryClaimChunk(idx: nat) returns (t: Option<(nat, nat)>)
      ensures t == TryClaim(View(), idx)
    {
      if idx * CHUNK_SIZE >= len {
        return None;
      }
      if idx !in chunks {
        return Some((idx, 0));
      }
      t := if chunks[idx].Empty? then Some((idx, chunks[idx].retries)) else None;
    }

    method FinishFetch(w: nat, body: seq<Byte>)
      requires w < |workers| && workers[w].Fetching?
      modifies this
      ensures View() == CompleteStep(old(View()), w, body)
    {
      chunks := chunks[workers[w].idx := Ready(body)];
      workers := workers[w := Idle];
    }

    /** A worker handles the answer to its request. */
    method HandleResponse(w: nat, res: Response)
      requires w < |workers| && workers[w].Fetching? && workers[w].idx * CHUNK_SIZE < len
      modifies this
      ensures var body := old(FetchedBy(View(), w, res));
              View() == if body.Some? then CompleteStep(old(View()), w, body.value) else FailStep(old(View()), w)
    {
      var idx := workers[w].idx;
      var body := FetchChunk(res, idx * CHUNK_SIZE, RequestSize(len, idx));
      if body.Some? {
        FinishFetch(w, body.value);
      } else {
        RequeueOrFatal(w);
      }
    }

    method RequeueOrFatal(w: nat)
      requires w < |workers| && workers[w].Fetching?
      modifies this
      ensures View() == FailStep(old(View()), w)
    {
      if workers[w].retries >= MAX_FETCH_RETRIES {
        fatal := true;
      } else {
        chunks := chunks[workers[w].idx := Empty(workers[w].retries + 1)];
      }
      workers := workers[w := Idle];
    }
  }
}
