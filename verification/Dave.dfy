/** The end-to-end encryption handshake of a voice connection (discord/crypto/dave.rs). The MLS session
    (RFC 9420) is opaque: all that is known is that each answer is determined by the calls made so far. */
module Dave {
  import opened Common

  const DAVE_INITIAL_VERSION: nat := 1
  const MAX_DAVE_CONTROL_PAYLOAD_BYTES: nat := 1_048_576
  const MAX_PENDING_PROPOSALS: nat := 64

  type Data = seq<Byte>

  datatype MlsCall =
    | Create(version: nat)
    | Reinit(version: nat)
    | ReinitForTransition(version: nat)
    | CreateKeyPackage
    | SetExternalSender(data: Data)
    | ProcessProposals(append: bool, data: Data, users: seq<nat>)
    | ProcessHandshake(welcome: bool, data: Data)
    | ProcessHandshakeFor(welcome: bool, data: Data, tid: nat)
    | ExecuteStaged(tid: nat)
    | DiscardStaged(tid: nat)
    | Encrypt(packet: Data)

  /** The answer of the library: an error, or success with whatever bytes it produced. */
  datatype Answer = Refused | Done(output: Option<Data>)

  /** The library: its answer to a call and the readiness of its session, as functions of everything it
      has been asked so far, the current call last. */
  datatype Library = Library(answer: seq<MlsCall> -> Answer, ready: seq<MlsCall> -> bool)

  datatype EpochOutcome = KeyPackage(data: Data) | Ready | Ignored

  /** What an operation returns. Plaintext and Ciphertext tell the two ways out of `encrypt_opus` apart. */
  datatype Reply =
    | Failed
    | Silent
    | Payload(data: Data)
    | Acknowledge(ready: bool)
    | TransitionId(id: nat)
    | Response(commit: Option<Data>)
    | Responses(commits: seq<Data>)
    | Epoch(outcome: EpochOutcome)
    | Plaintext(packet: Data)
    | Ciphertext(packet: Data)

  datatype Handler = Handler(
    session: bool,
    log: seq<MlsCall>,
    version: nat,
    required: bool,
    prepared: nat,
    staged: map<nat, nat>,
    senderSet: bool,
    savedSender: Option<Data>,
    proposals: seq<Data>,
    handshakes: seq<(Data, bool)>,
    wasReady: bool,
    users: set<nat>,
    cachedIds: seq<nat>)

  function New(user: nat): Handler {
    Handler(false, [], 0, false, 0, map[], false, None, [], [], false, {user}, [user])
  }

  // ---------------------------------------------------------------- the user cache

  ghost predicate IsSortedIds(ids: seq<nat>, users: set<nat>) {
    && (forall i, j :: 0 <= i < j < |ids| ==> ids[i] < ids[j])
    && (forall u :: u in users <==> u in ids)
  }

  ghost function Largest(s: set<nat>): (m: nat)
    requires s != {}
    ensures m in s && forall x :: x in s ==> x <= m
  {
    var x :| x in s;
    if s - {x} == {} then
      assert s == {x};
      x
    else
      var m := Largest(s - {x});
      assert forall y :: y in s ==> y == x || y in s - {x};
      if m > x then m else x
  }

  ghost function SortedIds(users: set<nat>): (ids: seq<nat>)
    ensures IsSortedIds(ids, users)
  {
    if users == {} then []
    else
      var m := Largest(users);
      SortedIds(users - {m}) + [m]
  }

  lemma {:induction false} SortedIdsUnique(a: seq<nat>, b: seq<nat>, users: set<nat>)
    requires IsSortedIds(a, users) && IsSortedIds(b, users)
    ensures a == b
    decreases |a|
  {
    LastIsLargest(a, users);
    LastIsLargest(b, users);
    if |a| > 0 {
      var m := a[|a| - 1];
      LastRemoved(a, users);
      LastRemoved(b, users);
      SortedIdsUnique(a[..|a| - 1], b[..|b| - 1], users - {m});
      assert a == a[..|a| - 1] + [m] && b == b[..|b| - 1] + [m];
    }
  }

  lemma LastIsLargest(a: seq<nat>, users: set<nat>)
    requires IsSortedIds(a, users)
    ensures a == [] <==> users == {}
    ensures a != [] ==> a[|a| - 1] in users && forall u :: u in users ==> u <= a[|a| - 1]
  {
    if a != [] {
      assert a[0] in a && a[|a| - 1] in a;
      forall u | u in users ensures u <= a[|a| - 1] {
        var i :| 0 <= i < |a| && a[i] == u;
      }
    }
  }

  lemma LastRemoved(a: seq<nat>, users: set<nat>)
    requires IsSortedIds(a, users) && |a| > 0
    ensures IsSortedIds(a[..|a| - 1], users - {a[|a| - 1]})
  {
    var m := a[|a| - 1];
    forall u ensures u in users - {m} <==> u in a[..|a| - 1] {
      if u in a[..|a| - 1] {
        var i :| 0 <= i < |a| - 1 && a[i] == u;
      }
      if u in users - {m} {
        var i :| 0 <= i < |a| && a[i] == u;
        assert a[..|a| - 1][i] == u;
      }
    }
  }

  // ---------------------------------------------------------------- the operations

  function Ask(h: Handler, c: MlsCall): Handler { h.(log := h.log + [c]) }

  function Reset(h: Handler): Handler {
    Handler(false, h.log, 0, h.required, 0, map[], false, None, [], [], false, h.users, h.cachedIds)
  }

  function SetupSession(lib: Library, h: Handler, v: nat): (Handler, Reply) {
    if v == 0 then (Reset(h).(required := false), Payload([]))
    else if v != DAVE_INITIAL_VERSION then (h.(required := true), Failed)
    else OpenSession(lib, h.(required := true), v)
  }

  /** A session that was just opened; one that is reused keeps the sender it was given. */
  function Begin(h: Handler, v: nat): Handler {
    Handler(true, h.log, h.version, h.required, v, h.staged, h.session && h.savedSender.Some?, h.savedSender,
            [], [], false, h.users, h.cachedIds)
  }

  function FetchKeyPackage(lib: Library, h: Handler): (Handler, Reply) {
    var h1 := Ask(h, CreateKeyPackage);
    match lib.answer(h1.log)
    case Refused => (h1, Failed)
    case Done(output) => (h1, Payload(if output.Some? then output.value else []))
  }

  function OpenSession(lib: Library, h: Handler, v: nat): (Handler, Reply) {
    var open := if !h.session then Create(v) else if h.version == 0 then Reinit(v) else ReinitForTransition(v);
    var h1 := Ask(h, open);
    if lib.answer(h1.log).Refused? then (h1, Failed)
    else
      FetchKeyPackage(lib, Begin(h1, v))
  }

  function ExecuteTransition(h: Handler, id: nat): Handler {
    if id !in h.staged then h
    else
      var next := h.staged[id];
      var h1 := h.(staged := h.staged - {id}, version := next, required := next != 0);
      if h.session then Ask(h1, if next == 0 then DiscardStaged(id) else ExecuteStaged(id)) else h1
  }

  function PrepareTransition(h: Handler, id: nat, v: nat): (Handler, Reply) {
    if v != 0 && v != DAVE_INITIAL_VERSION then (h, Acknowledge(false))
    else
      var h1 := h.(staged := h.staged[id := v]);
      if id == 0 then (ExecuteTransition(h1, 0), Acknowledge(false)) else (h1, Acknowledge(true))
  }

  function PrepareEpoch(lib: Library, h: Handler, epoch: nat, v: nat): (Handler, Reply) {
    if v == 0 || v > DAVE_INITIAL_VERSION then (h, Epoch(Ignored))
    else if epoch == 1 then
      var (h1, r) := SetupSession(lib, h, v);
      (h1, Epoch(if r.Payload? then KeyPackage(r.data) else Ignored))
    else if epoch == 0 || !h.session then (h, Epoch(Ignored))
    else (h.(prepared := v), Epoch(Ready))
  }

  /** `do_process_proposals`, on a present session. */
  function DoProposals(lib: Library, h: Handler, data: Data): (Handler, Reply)
    requires data != []
  {
    if data[0] > 1 then (h, Failed)
    else
      var h1 := Ask(h, ProcessProposals(data[0] == 0, data[1..], h.cachedIds));
      match lib.answer(h1.log)
      case Refused => (h1, Failed)
      case Done(output) => (h1, Response(output))
  }

  function Tid(data: Data): nat
    requires |data| >= 2
  {
    data[0] as int * 256 + data[1] as int
  }

  /** `do_process_handshake`. */
  function DoHandshake(lib: Library, h: Handler, data: Data, welcome: bool): (Handler, Reply)
    requires |data| >= 2
  {
    var id := Tid(data);
    var v := if id != 0 && id in h.staged then h.staged[id] else h.prepared;
    if !h.session then (h, TransitionId(id))
    else
      var h1 := Ask(h, if id == 0 then ProcessHandshake(welcome, data[2..])
                       else ProcessHandshakeFor(welcome, data[2..], id));
      if lib.answer(h1.log).Refused? then (h1, Failed)
      else if id == 0 then (h1.(version := v), TransitionId(id))
      else (h1.(staged := h1.staged[id := v]), TransitionId(id))
  }

  predicate GoodProposals(ps: seq<Data>) { forall i :: 0 <= i < |ps| ==> ps[i] != [] }

  predicate GoodHandshakes(hs: seq<(Data, bool)>) { forall i :: 0 <= i < |hs| ==> |hs[i].0| >= 2 }

  /** Process buffered proposals in order, collecting commits, up to the first failure. */
  function DrainProposals(lib: Library, h: Handler, ps: seq<Data>): (Handler, Option<seq<Data>>)
    requires GoodProposals(ps)
    decreases |ps|
  {
    if ps == [] then (h, Some([]))
    else
      var (h1, r) := DoProposals(lib, h, ps[0]);
      if r.Failed? then (h1, None)
      else
        var (h2, rest) := DrainProposals(lib, h1, ps[1..]);
        (h2, if rest.None? then None else Some(Commits(r) + rest.value))
  }

  function Commits(r: Reply): seq<Data> {
    if r.Response? && r.commit.Some? then [r.commit.value] else []
  }

  function DrainHandshakes(lib: Library, h: Handler, hs: seq<(Data, bool)>): (Handler, bool)
    requires GoodHandshakes(hs)
    decreases |hs|
  {
    if hs == [] then (h, true)
    else
      var (h1, r) := DoHandshake(lib, h, hs[0].0, hs[0].1);
      if r.Failed? then (h1, false) else DrainHandshakes(lib, h1, hs[1..])
  }

  predicate GoodBuffers(h: Handler) { GoodProposals(h.proposals) && GoodHandshakes(h.handshakes) }

  function ExternalSender(lib: Library, h: Handler, data: Data): (Handler, Reply)
    requires GoodBuffers(h)
  {
    if |data| > MAX_DAVE_CONTROL_PAYLOAD_BYTES then (h, Failed)
    else if h.senderSet && h.savedSender == Some(data) then (h, Responses([]))
    else if !h.session then (h, Responses([]))
    else
      var h1 := Ask(h, SetExternalSender(data));
      if lib.answer(h1.log).Refused? then (h1, Failed)
      else
        var h2 := h1.(senderSet := true, savedSender := Some(data), proposals := []);
        var (h3, commits) := DrainProposals(lib, h2, h.proposals);
        if commits.None? then (h3, Failed)
        else
          var (h4, ok) := DrainHandshakes(lib, h3.(handshakes := []), h.handshakes);
          (h4, if ok then Responses(commits.value) else Failed)
  }

  function Handshake(lib: Library, h: Handler, data: Data, welcome: bool): (Handler, Reply) {
    if |data| < 2 || |data| > MAX_DAVE_CONTROL_PAYLOAD_BYTES then (h, Failed)
    else if !h.senderSet then
      (if |h.handshakes| < MAX_PENDING_PROPOSALS then h.(handshakes := h.handshakes + [(data, welcome)]) else h,
       TransitionId(Tid(data)))
    else DoHandshake(lib, h, data, welcome)
  }

  function Proposals(lib: Library, h: Handler, data: Data): (Handler, Reply) {
    if data == [] || |data| > MAX_DAVE_CONTROL_PAYLOAD_BYTES then (h, Failed)
    else if !h.senderSet then
      (if |h.proposals| < MAX_PENDING_PROPOSALS then h.(proposals := h.proposals + [data]) else h,
       Response(None))
    else if !h.session then (h, Response(None))
    else DoProposals(lib, h, data)
  }

  predicate CanSendMedia(lib: Library, h: Handler) {
    !h.required || (h.version != 0 && h.session && lib.ready(h.log))
  }

  function EncryptOpus(lib: Library, h: Handler, packet: Data): (Handler, Reply) {
    if !h.required then (h, Plaintext(packet))
    else if !CanSendMedia(lib, h) || !h.session then (h, Failed)
    else
      var h1 := Ask(h.(wasReady := true), Encrypt(packet));
      match lib.answer(h1.log)
      case Refused => (h1, Failed)
      case Done(output) => (h1, Ciphertext(if output.Some? then output.value else []))
  }

  datatype Op =
    | AddUsers(ids: seq<nat>)
    | RemoveUser(id: nat)
    | Setup(v: nat)
    | ResetAll
    | Stage(tid: nat, v: nat)
    | Execute(tid: nat)
    | NewEpoch(epoch: nat, v: nat)
    | Sender(data: Data)
    | Message(data: Data, welcome: bool)
    | Propose(data: Data)
    | Send(packet: Data)

  ghost function WithUsers(h: Handler, users: set<nat>): Handler {
    h.(users := users, cachedIds := SortedIds(users))
  }

  ghost function Apply(lib: Library, h: Handler, op: Op): (Handler, Reply)
    requires GoodBuffers(h)
  {
    match op
    case AddUsers(ids) => (WithUsers(h, h.users + (set u | u in ids)), Silent)
    case RemoveUser(id) => (if id in h.users then WithUsers(h, h.users - {id}) else h, Silent)
    case Setup(v) => SetupSession(lib, h, v)
    case ResetAll => (Reset(h), Silent)
    case Stage(id, v) => PrepareTransition(h, id, v)
    case Execute(id) => (ExecuteTransition(h, id), Silent)
    case NewEpoch(e, v) => PrepareEpoch(lib, h, e, v)
    case Sender(data) => ExternalSender(lib, h, data)
    case Message(data, w) => Handshake(lib, h, data, w)
    case Propose(data) => Proposals(lib, h, data)
    case Send(packet) => EncryptOpus(lib, h, packet)
  }

  // ---------------------------------------------------------------- what the library is asked

  /** Bytes that come with an answer; no answer and an empty one are the same to the caller. */
  function OutputOf(a: Answer): Data
    requires a.Done?
  {
    if a.output.Some? then a.output.value else []
  }

  predicate CanEncrypt(lib: Library, h: Handler) { h.version != 0 && h.session && lib.ready(h.log) }

  /** While encryption is required a packet is either refused, or handed to the library of a ready session, and what
      leaves is exactly what the library made of it. */
  predicate SentEncrypted(lib: Library, h: Handler, packet: Data, h': Handler, r: Reply) {
    var asked := h.log + [Encrypt(packet)];
    if CanEncrypt(lib, h) then
      && h' == h.(log := asked, wasReady := true)
      && r == if lib.answer(asked).Done? then Ciphertext(OutputOf(lib.answer(asked))) else Failed
    else
      h' == h && r == Failed
  }

  /** A packet leaves as it is if and only if encryption is not required, and otherwise it leaves encrypted or not at
      all. */
  lemma SendingIsSafe(lib: Library, h: Handler, packet: Data)
    ensures var (h', r) := EncryptOpus(lib, h, packet);
            && (r == Plaintext(packet) <==> !h.required)
            && (!h.required ==> h' == h)
            && (h.required ==> SentEncrypted(lib, h, packet, h', r))
  {
  }

  /** The transition id is the first two bytes, high byte first. */
  lemma TidBytes(data: Data)
    requires |data| >= 2
    ensures 0 <= Tid(data) < 65536 && Tid(data) / 256 == data[0] && Tid(data) % 256 == data[1]
  {
  }

  /** Opening a session: a new one is created, one in use at version 0 is made anew, and any other is made ready for a
      transition. A key package is asked for if that succeeds, and handed out. */
  lemma OpeningCalls(lib: Library, h: Handler, v: nat)
    ensures var (h', r) := OpenSession(lib, h, v);
            && |h.log| < |h'.log| <= |h.log| + 2 && h.log <= h'.log
            && var open := h'.log[|h.log|];
               && (open == Create(v) <==> !h.session)
               && (open == Reinit(v) <==> h.session && h.version == 0)
               && (open == ReinitForTransition(v) <==> h.session && h.version != 0)
               && var ok := lib.answer(h.log + [open]).Done?;
                  && (ok <==> |h'.log| == |h.log| + 2)
                  && (ok ==> h'.log[|h.log| + 1] == CreateKeyPackage && h'.session && h'.prepared == v)
                  && (ok && lib.answer(h'.log).Done? ==> r == Payload(OutputOf(lib.answer(h'.log))))
                  && (!ok ==> h' == h.(log := h'.log))
                  && (r.Failed? <==> lib.answer(h'.log).Refused?)
  {
  }

  /** Users come and go one by one, and nothing else changes but the sorted list of them. */
  lemma UsersFollow(lib: Library, h: Handler, ids: seq<nat>, id: nat)
    requires Inv(h)
    ensures var (h', r) := Apply(lib, h, AddUsers(ids));
            && (forall u :: u in h'.users <==> u in h.users || u in ids)
            && h' == h.(users := h'.users, cachedIds := SortedIds(h'.users))
    ensures var (h', r) := Apply(lib, h, RemoveUser(id));
            && (forall u :: u in h'.users <==> u in h.users && u != id)
            && h' == h.(users := h'.users, cachedIds := SortedIds(h'.users))
  {
    SortedIdsUnique(h.cachedIds, SortedIds(h.users), h.users);
    if id !in h.users { assert h.users - {id} == h.users; }
  }

  /** A reset handler is a new one, but for the users, the requirement and what the library has seen. */
  lemma ResetForgets(h: Handler, user: nat)
    ensures Reset(h) == New(user).(log := h.log, required := h.required, users := h.users, cachedIds := h.cachedIds)
  {
  }

  /** A session that was opened starts with empty buffers and, if it is a new one, without a sender. What is active and
      what is staged stays. */
  lemma OpenedSession(lib: Library, h: Handler, v: nat)
    ensures var h' := OpenSession(lib, h, v).0;
            |h'.log| == |h.log| + 2 ==>
              && h'.session && h'.prepared == v && h'.proposals == [] && h'.handshakes == [] && !h'.wasReady
              && (h'.senderSet <==> h.session && h.savedSender.Some?) && h'.savedSender == h.savedSender
              && h'.version == h.version && h'.staged == h.staged && h'.required == h.required
              && h'.users == h.users && h'.cachedIds == h.cachedIds
  {
  }

  /** Setting up a session: version 0 ends it and lifts the requirement, any other version requires encryption whatever
      becomes of the setup, and only version 1 is set up. */
  lemma SettingUp(lib: Library, h: Handler, v: nat)
    ensures var (h', r) := SetupSession(lib, h, v);
            && (h'.required <==> v != 0)
            && (v == 0 ==> r == Payload([]) && h' == Reset(h).(required := false))
            && (v == 1 ==> (h', r) == OpenSession(lib, h.(required := true), 1))
            && (v > 1 ==> r.Failed? && h' == h.(required := true))
  {
  }

  /** Announcing a transition: an unsupported version is ignored, id 0 is executed at once, and any other one is staged
      and has to be acknowledged. */
  lemma Staging(h: Handler, id: nat, v: nat)
    ensures var (h', r) := PrepareTransition(h, id, v);
            && (r == Acknowledge(true) <==> v <= 1 && id > 0) && r.Acknowledge?
            && (v > 1 ==> h' == h)
            && (v <= 1 && id > 0 ==> h' == h.(staged := h.staged[id := v]))
            && (v <= 1 && id == 0 ==>
                  && h'.version == v && (h'.required <==> v == 1) && h'.staged == h.staged - {0}
                  && (h.session <==> |h'.log| == |h.log| + 1))
  {
  }

  /** Announcing an epoch: the first one sets up a session for version 1 and hands out its key package, a later one only
      prepares the version of an existing session, and everything else is ignored. */
  lemma Announcing(lib: Library, h: Handler, epoch: nat, v: nat)
    ensures var (h', r) := PrepareEpoch(lib, h, epoch, v);
            && r.Epoch?
            && (r == Epoch(Ready) <==> v == 1 && epoch > 1 && h.session)
            && (v == 1 && epoch == 1 ==>
                  && h' == SetupSession(lib, h, 1).0
                  && (r.outcome.KeyPackage? <==> SetupSession(lib, h, 1).1.Payload?)
                  && (r.outcome.KeyPackage? ==> SetupSession(lib, h, 1).1 == Payload(r.outcome.data)))
            && (v != 1 || epoch != 1 ==>
                  !r.outcome.KeyPackage? && h' == if r.outcome.Ready? then h.(prepared := v) else h)
  {
  }

  /** Draining messages on a present session asks for them one by one until one is refused. */
  lemma {:induction false} DrainingStops(lib: Library, h: Handler, hs: seq<(Data, bool)>)
    requires GoodHandshakes(hs) && h.session
    ensures var (h', ok) := DrainHandshakes(lib, h, hs);
            && h'.session && |h'.log| <= |h.log| + |hs|
            && (ok <==> |h'.log| == |h.log| + |hs| && (hs == [] || lib.answer(h'.log).Done?))
    decreases |hs|
  {
    if hs != [] {
      var (h1, r) := DoHandshake(lib, h, hs[0].0, hs[0].1);
      HandshakeCalls(lib, h, hs[0].0, hs[0].1);
      if !r.Failed? { DrainingStops(lib, h1, hs[1..]); }
    }
  }

  /** Executing a staged transition makes its version the active one, requires encryption exactly if that is not 0, and
      tells the session to take it up or to discard it accordingly. */
  lemma ExecutingCalls(h: Handler, id: nat)
    ensures var h' := ExecuteTransition(h, id);
            if id in h.staged then
              && h'.version == h.staged[id] && (h'.required <==> h.staged[id] != 0)
              && id !in h'.staged && h'.staged.Keys == h.staged.Keys - {id}
              && (forall k :: k in h'.staged ==> h'.staged[k] == h.staged[k])
              && (h.session <==> |h'.log| == |h.log| + 1) && (!h.session ==> h'.log == h.log)
              && (h.session ==> h.log < h'.log)
              && (h.session && h'.version != 0 ==> h'.log[|h.log|] == ExecuteStaged(id))
              && (h.session && h'.version == 0 ==> h'.log[|h.log|] == DiscardStaged(id))
              && h' == h.(version := h'.version, required := h'.required, staged := h'.staged, log := h'.log)
            else h' == h
  {
  }

  /** Proposals go to the library with all recognised users, in order; the first byte says whether they are added (0) or
      withdrawn (1), and nothing is asked for any other one. */
  lemma ProposalCalls(lib: Library, h: Handler, data: Data)
    requires Inv(h) && data != []
    ensures var (h', r) := DoProposals(lib, h, data);
            && h' == h.(log := h'.log)
            && (h'.log == h.log <==> data[0] >= 2) && (data[0] >= 2 ==> r.Failed?)
            && (data[0] < 2 ==>
                  && h'.log == h.log + [ProcessProposals(data[0] == 0, data[1..], SortedIds(h.users))]
                  && (r == if lib.answer(h'.log).Done? then Response(lib.answer(h'.log).output) else Failed))
  {
    if data[0] < 2 {
      SortedIdsUnique(h.cachedIds, SortedIds(h.users), h.users);
      assert |DoProposals(lib, h, data).0.log| == |h.log| + 1;
    }
  }

  /** A handshake message goes to the library without its id. Once accepted, id 0 activates the prepared version at
      once; any other id stages a version, the one it was staged with before or else the prepared one. */
  lemma HandshakeCalls(lib: Library, h: Handler, data: Data, welcome: bool)
    requires |data| >= 2 && h.session
    ensures var (h', r) := DoHandshake(lib, h, data, welcome);
            var id: nat := data[0] as int * 256 + data[1] as int;
            && h'.log == h.log + [if id == 0 then ProcessHandshake(welcome, data[2..])
                                  else ProcessHandshakeFor(welcome, data[2..], id)]
            && var accepted := lib.answer(h'.log).Done?;
               && r == (if accepted then TransitionId(id) else Failed)
               && (h'.version == if accepted && id == 0 then h.prepared else h.version)
               && h'.staged.Keys == (if accepted && id != 0 then h.staged.Keys + {id} else h.staged.Keys)
               && (forall k :: k in h'.staged ==> h'.staged[k] == if k in h.staged then h.staged[k] else h.prepared)
               && h' == h.(log := h'.log, version := h'.version, staged := h'.staged)
  {
  }

  // ---------------------------------------------------------------- what every operation keeps

  predicate GoodSizes(ps: seq<Data>, hs: seq<(Data, bool)>) {
    && (forall i :: 0 <= i < |ps| ==> 0 < |ps[i]| <= MAX_DAVE_CONTROL_PAYLOAD_BYTES)
    && (forall i :: 0 <= i < |hs| ==> 2 <= |hs[i].0| <= MAX_DAVE_CONTROL_PAYLOAD_BYTES)
  }

  ghost predicate Inv(h: Handler) {
    && GoodBuffers(h) && GoodSizes(h.proposals, h.handshakes)
    && |h.proposals| <= MAX_PENDING_PROPOSALS && |h.handshakes| <= MAX_PENDING_PROPOSALS
    // a session exists exactly while version 1 is prepared
    && h.prepared == (if h.session then DAVE_INITIAL_VERSION else 0)
    && (h.senderSet ==> h.session && h.savedSender.Some? && h.proposals == [])
    && h.version <= DAVE_INITIAL_VERSION
    && (forall id :: id in h.staged ==> h.staged[id] <= DAVE_INITIAL_VERSION)
    && IsSortedIds(h.cachedIds, h.users)
  }

  /** Draining buffers touches the call log, the staged transitions and the active version only, and
      stages no version that was not staged or prepared already. */
  ghost predicate DrainEffect(h: Handler, h': Handler) {
    && h' == h.(log := h'.log, version := h'.version, staged := h'.staged)
    && (h'.version == h.version || h'.version == h.prepared)
    && (forall id :: id in h'.staged ==>
          h'.staged[id] == h.prepared || (id in h.staged && h'.staged[id] == h.staged[id]))
  }

  lemma {:induction false} DrainProposalsEffect(lib: Library, h: Handler, ps: seq<Data>)
    requires GoodProposals(ps)
    ensures DrainEffect(h, DrainProposals(lib, h, ps).0)
    ensures DrainProposals(lib, h, ps).0.version == h.version && DrainProposals(lib, h, ps).0.staged == h.staged
    decreases |ps|
  {
    if ps != [] {
      DrainProposalsEffect(lib, DoProposals(lib, h, ps[0]).0, ps[1..]);
    }
  }

  lemma {:induction false} DrainHandshakesEffect(lib: Library, h: Handler, hs: seq<(Data, bool)>)
    requires GoodHandshakes(hs)
    ensures DrainEffect(h, DrainHandshakes(lib, h, hs).0)
    decreases |hs|
  {
    if hs != [] {
      var h1 := DoHandshake(lib, h, hs[0].0, hs[0].1).0;
      assert DrainEffect(h, h1);
      DrainHandshakesEffect(lib, h1, hs[1..]);
    }
  }

  /** An external sender leaves everything but the sender, the buffers and what draining them changes. */
  lemma ExternalSenderEffect(lib: Library, h: Handler, data: Data)
    requires GoodBuffers(h)
    ensures var h' := ExternalSender(lib, h, data).0;
            && DrainEffect(h.(senderSet := h'.senderSet, savedSender := h'.savedSender,
                              proposals := h'.proposals, handshakes := h'.handshakes), h')
            && (h'.proposals == h.proposals || h'.proposals == [])
            && (h'.handshakes == h.handshakes || h'.handshakes == [])
            && ((h'.senderSet == h.senderSet && h'.savedSender == h.savedSender) ||
                (h.session && h'.senderSet && h'.savedSender.Some? && h'.proposals == []))
  {
    var h2 := Ask(h, SetExternalSender(data)).(senderSet := true, savedSender := Some(data), proposals := []);
    DrainProposalsEffect(lib, h2, h.proposals);
    var h3 := DrainProposals(lib, h2, h.proposals).0;
    DrainHandshakesEffect(lib, h3.(handshakes := []), h.handshakes);
  }

  /** A sender that is new and that the library takes. */
  predicate TakesSender(lib: Library, h: Handler, data: Data) {
    && |data| <= MAX_DAVE_CONTROL_PAYLOAD_BYTES
    && !(h.senderSet && h.savedSender == Some(data))
    && h.session
    && lib.answer(Ask(h, SetExternalSender(data)).log).Done?
  }

  /** The handler on which the buffered proposals are drained. */
  function WithSender(h: Handler, data: Data): Handler {
    Ask(h, SetExternalSender(data)).(senderSet := true, savedSender := Some(data), proposals := [])
  }

  /** An accepted sender empties the proposal buffer; buffered handshake messages survive it if and only if draining a
      proposal failed. Any other sender leaves both buffers as they are. */
  lemma MessagesSurviveFailedDrain(lib: Library, h: Handler, data: Data)
    requires GoodBuffers(h)
    ensures var h' := ExternalSender(lib, h, data).0;
            if TakesSender(lib, h, data) then
              && h'.senderSet && h'.proposals == []
              && h'.handshakes ==
                 (if DrainProposals(lib, WithSender(h, data), h.proposals).1.None? then h.handshakes else [])
            else
              h'.proposals == h.proposals && h'.handshakes == h.handshakes
  {
    if TakesSender(lib, h, data) {
      var h2 := WithSender(h, data);
      DrainProposalsEffect(lib, h2, h.proposals);
      var h3 := DrainProposals(lib, h2, h.proposals).0;
      DrainHandshakesEffect(lib, h3.(handshakes := []), h.handshakes);
    }
  }

  lemma SenderKeeps(lib: Library, h: Handler, data: Data)
    requires Inv(h)
    ensures Inv(ExternalSender(lib, h, data).0)
  {
    ExternalSenderEffect(lib, h, data);
  }

  lemma SetupKeeps(lib: Library, h: Handler, v: nat)
    requires Inv(h)
    ensures Inv(SetupSession(lib, h, v).0)
  {
    if v == DAVE_INITIAL_VERSION {
      OpenKeeps(lib, h.(required := true), v);
    } else {
      assert Inv(Reset(h).(required := false));
    }
  }

  lemma OpenKeeps(lib: Library, h: Handler, v: nat)
    requires Inv(h) && v == DAVE_INITIAL_VERSION
    ensures Inv(OpenSession(lib, h, v).0)
  {
    forall c: MlsCall ensures Inv(Ask(h, c)) && Inv(Begin(Ask(h, c), v)) {
      BeginKeeps(Ask(h, c), v);
    }
  }

  lemma BeginKeeps(h: Handler, v: nat)
    requires Inv(h) && v == DAVE_INITIAL_VERSION
    ensures Inv(Begin(h, v))
  {
  }

  lemma TransitionsKeep(h: Handler, id: nat, v: nat)
    requires Inv(h)
    ensures Inv(PrepareTransition(h, id, v).0) && Inv(ExecuteTransition(h, id))
  {
  }

  lemma HandshakeKeeps(lib: Library, h: Handler, data: Data, welcome: bool)
    requires Inv(h)
    ensures Inv(Handshake(lib, h, data, welcome).0)
  {
    if 2 <= |data| <= MAX_DAVE_CONTROL_PAYLOAD_BYTES {
      if h.senderSet { DoHandshakeKeeps(lib, h, data, welcome); }
      else { SizesMore(h, [], [(data, welcome)]); }
    }
  }

  lemma DoHandshakeKeeps(lib: Library, h: Handler, data: Data, welcome: bool)
    requires Inv(h) && |data| >= 2
    ensures Inv(DoHandshake(lib, h, data, welcome).0)
  {
  }

  lemma SizesMore(h: Handler, ps: seq<Data>, hs: seq<(Data, bool)>)
    requires GoodSizes(h.proposals, h.handshakes) && GoodSizes(ps, hs)
    ensures GoodSizes(h.proposals + ps, h.handshakes + hs)
  {
  }

  lemma ProposalsKeep(lib: Library, h: Handler, data: Data)
    requires Inv(h)
    ensures Inv(Proposals(lib, h, data).0)
  {
  }

  lemma ApplyKeeps(lib: Library, h: Handler, op: Op)
    requires Inv(h)
    ensures Inv(Apply(lib, h, op).0)
  {
    match op
    case Setup(v) => SetupKeeps(lib, h, v);
    case NewEpoch(_, v) => SetupKeeps(lib, h, v);
    case Stage(id, v) => TransitionsKeep(h, id, v);
    case Execute(id) => TransitionsKeep(h, id, 0);
    case Sender(data) => SenderKeeps(lib, h, data);
    case Message(data, w) => HandshakeKeeps(lib, h, data, w);
    case Propose(data) => ProposalsKeep(lib, h, data);
    case _ =>
  }

  // ---------------------------------------------------------------- runs

  /** State `k + 1` is state `k` after operation `k`. */
  ghost predicate Follows(lib: Library, ops: seq<Op>, hs: seq<Handler>, k: nat)
    requires k < |ops| && |hs| == |ops| + 1
  {
    GoodBuffers(hs[k]) && hs[k + 1] == Apply(lib, hs[k], ops[k]).0
  }

  /** `hs` are the states a new handler goes through under the operations `ops`. */
  ghost predicate IsRun(lib: Library, user: nat, ops: seq<Op>, hs: seq<Handler>) {
    && |hs| == |ops| + 1
    && hs[0] == New(user)
    && forall k {:trigger Follows(lib, ops, hs, k)} :: 0 <= k < |ops| ==> Follows(lib, ops, hs, k)
  }

  lemma {:induction false} RunKeeps(lib: Library, user: nat, ops: seq<Op>, hs: seq<Handler>, n: nat)
    requires IsRun(lib, user, ops, hs) && n <= |ops|
    ensures Inv(hs[n])
    decreases n
  {
    if n == 0 {
      assert IsSortedIds([user], {user});
    } else {
      RunKeeps(lib, user, ops, hs, n - 1);
      assert Follows(lib, ops, hs, n - 1);
      ApplyKeeps(lib, hs[n - 1], ops[n - 1]);
    }
  }

  /** Every sequence of operations has a run: no operation is ever refused by the model. */
  lemma {:induction false} RunExists(lib: Library, user: nat, ops: seq<Op>) returns (hs: seq<Handler>)
    ensures IsRun(lib, user, ops, hs)
    decreases |ops|
  {
    if ops == [] {
      hs := [New(user)];
    } else {
      var n := |ops| - 1;
      var front := RunExists(lib, user, ops[..n]);
      RunKeeps(lib, user, ops[..n], front, n);
      hs := front + [Apply(lib, front[n], ops[n]).0];
      forall k | 0 <= k < |ops| ensures Follows(lib, ops, hs, k) {
        if k < n { assert Follows(lib, ops[..n], front, k); }
      }
    }
  }

  /** Messages do get stuck: open a session, put a message and a malformed proposal aside, learn the sender. The
      sender is known then, and the message is still waiting. */
  lemma MessagesGetStuck(lib: Library, user: nat) returns (ops: seq<Op>, hs: seq<Handler>)
    requires forall log :: lib.answer(log).Done?
    ensures IsRun(lib, user, ops, hs)
    ensures hs[|ops|].senderSet && hs[|ops|].handshakes != []
  {
    ops := [Setup(1), Message([0, 5], true), Propose([2]), Sender([])];
    hs := RunExists(lib, user, ops);
    assert Follows(lib, ops, hs, 0) && Follows(lib, ops, hs, 1);
    assert hs[2].session && !hs[2].senderSet && hs[2].proposals == [] && hs[2].handshakes == [([0, 5], true)];
    assert Follows(lib, ops, hs, 2) && Follows(lib, ops, hs, 3);
    assert hs[3].proposals == [[2]];
    MessagesSurviveFailedDrain(lib, hs[3], []);
  }

  // ---------------------------------------------------------------- encryption is sticky

  /** Asking for a nonzero version, whether or not the session can be set up. */
  predicate RequestsEncryption(op: Op) {
    (op.Setup? && op.v != 0) || (op.NewEpoch? && op.epoch == 1 && op.v == DAVE_INITIAL_VERSION)
  }

  predicate StagedZero(h: Handler, id: nat) { id in h.staged && h.staged[id] == 0 }

  /** The operations that lift the requirement: negotiating version 0, or executing a transition that is staged as 0
      at that moment. */
  ghost predicate Downgrades(h: Handler, op: Op) {
    op == Setup(0) || op == Stage(0, 0) || (op.Execute? && StagedZero(h, op.tid))
  }

  /** What one operation can do to the requirement and to the staged downgrades. Version 0 is staged by
      announcing it and by nothing else, in particular by no handshake message. */
  ghost predicate Sticky(h: Handler, op: Op, h': Handler, r: Reply) {
    && (RequestsEncryption(op) ==> h'.required)
    && (h.required && !h'.required ==> Downgrades(h, op))
    && (h.required ==> !r.Plaintext?)
    && (forall id :: StagedZero(h', id) ==> op == Stage(id, 0) || StagedZero(h, id))
  }

  lemma SetupIsSticky(lib: Library, h: Handler, v: nat)
    ensures var (h', r) := SetupSession(lib, h, v);
            && h'.required == (v != 0) && !r.Plaintext?
            && (h'.staged == h.staged || h'.staged == map[])
  {
  }

  lemma MessageIsSticky(lib: Library, h: Handler, data: Data, welcome: bool)
    requires Inv(h)
    ensures Sticky(h, Message(data, welcome), Handshake(lib, h, data, welcome).0, Handshake(lib, h, data, welcome).1)
  {
  }

  lemma SenderIsSticky(lib: Library, h: Handler, data: Data)
    requires Inv(h)
    ensures Sticky(h, Sender(data), ExternalSender(lib, h, data).0, ExternalSender(lib, h, data).1)
  {
    ExternalSenderEffect(lib, h, data);
  }

  lemma TransitionsAreSticky(h: Handler, id: nat, v: nat)
    ensures Sticky(h, Stage(id, v), PrepareTransition(h, id, v).0, PrepareTransition(h, id, v).1)
    ensures Sticky(h, Execute(id), ExecuteTransition(h, id), Silent)
  {
  }

  lemma ApplyIsSticky(lib: Library, h: Handler, op: Op)
    requires Inv(h)
    ensures Sticky(h, op, Apply(lib, h, op).0, Apply(lib, h, op).1)
  {
    match op
    case Setup(v) => SetupIsSticky(lib, h, v);
    case NewEpoch(_, v) => SetupIsSticky(lib, h, v);
    case Stage(id, v) => TransitionsAreSticky(h, id, v);
    case Execute(id) => TransitionsAreSticky(h, id, 0);
    case Sender(data) => SenderIsSticky(lib, h, data);
    case Message(data, w) => MessageIsSticky(lib, h, data, w);
    case _ =>
  }

  /** Where a new active version comes from: a transition that was staged with it, an accepted handshake message with
      id 0 or one that was waiting for the sender, which activate the prepared one, or the end of the session. */
  ghost predicate Caused(h: Handler, op: Op, v: nat) {
    || (op.Execute? && op.tid in h.staged && h.staged[op.tid] == v)
    || op == Stage(0, v)
    || (op.Message? && |op.data| >= 2 && op.data[0] == op.data[1] == 0 && h.senderSet && v == h.prepared)
    || (op.Sender? && h.handshakes != [] && v == h.prepared)
    || ((op == Setup(0) || op == ResetAll) && v == 0)
  }

  /** The active version never changes by itself, and setting up a session does not change it. */
  lemma VersionHasACause(lib: Library, h: Handler, op: Op)
    requires Inv(h)
    ensures var v := Apply(lib, h, op).0.version; v == h.version || Caused(h, op, v)
  {
    if op.Sender? {
      DrainProposalsEffect(lib, WithSender(h, op.data), h.proposals);
      ExternalSenderEffect(lib, h, op.data);
    }
  }

  lemma {:induction false} ZeroWasStaged(lib: Library, user: nat, ops: seq<Op>, hs: seq<Handler>, n: nat, id: nat)
    requires IsRun(lib, user, ops, hs) && n <= |ops| && StagedZero(hs[n], id)
    ensures exists k :: 0 <= k < n && ops[k] == Stage(id, 0)
    decreases n
  {
    if n > 0 {
      RunKeeps(lib, user, ops, hs, n - 1);
      assert Follows(lib, ops, hs, n - 1);
      ApplyIsSticky(lib, hs[n - 1], ops[n - 1]);
      if ops[n - 1] != Stage(id, 0) {
        ZeroWasStaged(lib, user, ops, hs, n - 1, id);
      }
    }
  }

  lemma RequirementKept(lib: Library, user: nat, ops: seq<Op>, hs: seq<Handler>, n: nat)
    requires IsRun(lib, user, ops, hs) && n < |ops|
    requires RequestsEncryption(ops[n]) || (hs[n].required && !Downgrades(hs[n], ops[n]))
    ensures hs[n + 1].required
  {
    RunKeeps(lib, user, ops, hs, n);
    assert Follows(lib, ops, hs, n);
    ApplyIsSticky(lib, hs[n], ops[n]);
  }

  /** In every run: once a nonzero version has been requested, even if that setup failed, and until version 0 is
      negotiated or a transition staged as 0 is executed, encryption is required: a packet leaves as what the
      library of a ready session made of it, or not at all. */
  lemma {:induction false} EncryptionIsSticky(lib: Library, user: nat, ops: seq<Op>, hs: seq<Handler>, i: nat, n: nat,
                                              packet: Data)
    requires IsRun(lib, user, ops, hs) && i < n <= |ops| && RequestsEncryption(ops[i])
    requires forall j :: i < j < n ==> !Downgrades(hs[j], ops[j])
    ensures var (h', r) := EncryptOpus(lib, hs[n], packet);
            hs[n].required && !r.Plaintext? && SentEncrypted(lib, hs[n], packet, h', r)
    decreases n
  {
    if i < n - 1 {
      EncryptionIsSticky(lib, user, ops, hs, i, n - 1, packet);
    }
    RequirementKept(lib, user, ops, hs, n - 1);
    SendingIsSafe(lib, hs[n], packet);
  }

  // ---------------------------------------------------------------- messages that come too early

  /** A run from any state: the final handler and the reply to each operation. */
  ghost function Run(lib: Library, h: Handler, ops: seq<Op>): (r: (Handler, seq<Reply>))
    requires Inv(h)
    ensures Inv(r.0) && |r.1| == |ops|
    decreases |ops|
  {
    if ops == [] then (h, [])
    else
      ApplyKeeps(lib, h, ops[0]);
      var (h1, r1) := Apply(lib, h, ops[0]);
      var (h2, rest) := Run(lib, h1, ops[1..]);
      (h2, [r1] + rest)
  }

  ghost predicate NoFailure(rs: seq<Reply>) { forall i :: 0 <= i < |rs| ==> !rs[i].Failed? }

  /** A proposal or a handshake message of acceptable size. */
  predicate Early(op: Op) {
    || (op.Propose? && 0 < |op.data| <= MAX_DAVE_CONTROL_PAYLOAD_BYTES)
    || (op.Message? && 2 <= |op.data| <= MAX_DAVE_CONTROL_PAYLOAD_BYTES)
  }

  predicate AllEarly(ops: seq<Op>) { forall i :: 0 <= i < |ops| ==> Early(ops[i]) }

  function ProposalsIn(ops: seq<Op>): seq<Data> {
    if ops == [] then [] else (if ops[0].Propose? then [ops[0].data] else []) + ProposalsIn(ops[1..])
  }

  function MessagesIn(ops: seq<Op>): seq<(Data, bool)> {
    if ops == [] then []
    else (if ops[0].Message? then [(ops[0].data, ops[0].welcome)] else []) + MessagesIn(ops[1..])
  }

  function AsProposals(ps: seq<Data>): (ops: seq<Op>)
    ensures |ops| == |ps| && forall i :: 0 <= i < |ps| ==> ops[i] == Propose(ps[i])
  {
    seq(|ps|, i requires 0 <= i < |ps| => Propose(ps[i]))
  }

  function AsMessages(hs: seq<(Data, bool)>): (ops: seq<Op>)
    ensures |ops| == |hs| && forall i :: 0 <= i < |hs| ==> ops[i] == Message(hs[i].0, hs[i].1)
  {
    seq(|hs|, i requires 0 <= i < |hs| => Message(hs[i].0, hs[i].1))
  }

  function AllCommits(rs: seq<Reply>): seq<Data> {
    if rs == [] then [] else Commits(rs[0]) + AllCommits(rs[1..])
  }

  function FirstPending<T>(s: seq<T>): seq<T> {
    if |s| <= MAX_PENDING_PROPOSALS then s else s[..MAX_PENDING_PROPOSALS]
  }

  function EarlyReply(op: Op): Reply
    requires Early(op)
  {
    if op.Message? then TransitionId(Tid(op.data)) else Response(None)
  }

  /** The answers to the handshake messages among `ops`. */
  function MessageReplies(ops: seq<Op>, rs: seq<Reply>): seq<Reply>
    requires |ops| == |rs|
  {
    if ops == [] then [] else (if ops[0].Message? then [rs[0]] else []) + MessageReplies(ops[1..], rs[1..])
  }

  /** Put aside, every handshake message is answered with its transition id. */
  lemma {:induction false} EarlyMessageReplies(ops: seq<Op>, rs: seq<Reply>)
    requires |ops| == |rs| && AllEarly(ops) && forall i :: 0 <= i < |ops| ==> rs[i] == EarlyReply(ops[i])
    ensures |MessageReplies(ops, rs)| == |MessagesIn(ops)|
    ensures forall i :: 0 <= i < |MessagesIn(ops)| ==>
              |MessagesIn(ops)[i].0| >= 2 && MessageReplies(ops, rs)[i] == TransitionId(Tid(MessagesIn(ops)[i].0))
  {
    if ops != [] {
      assert Early(ops[0]) && rs[0] == EarlyReply(ops[0]);
      EarlyMessageReplies(ops[1..], rs[1..]);
    }
  }

  /** `h'` is `h` with the messages of `ops` put aside, the first 64 of each kind, and `rs` the answers. */
  ghost predicate PutAside(h: Handler, ops: seq<Op>, h': Handler, rs: seq<Reply>)
    requires AllEarly(ops)
  {
    && h' == h.(proposals := FirstPending(h.proposals + ProposalsIn(ops)),
                handshakes := FirstPending(h.handshakes + MessagesIn(ops)))
    && |rs| == |ops|
    && forall i :: 0 <= i < |ops| ==> rs[i] == EarlyReply(ops[i])
  }

  /** Before the sender is known, messages are only put aside. */
  lemma {:induction false} EarlyMessagesAreBuffered(lib: Library, h: Handler, ops: seq<Op>)
    requires Inv(h) && !h.senderSet && AllEarly(ops)
    ensures PutAside(h, ops, Run(lib, h, ops).0, Run(lib, h, ops).1)
    decreases |ops|
  {
    if ops == [] {
      assert h.proposals + [] == h.proposals && h.handshakes + [] == h.handshakes;
    } else {
      OneIsBuffered(lib, h, ops);
      var (h', rs) := Run(lib, Buffered(h, ops[0]), ops[1..]);
      EarlyMessagesAreBuffered(lib, Buffered(h, ops[0]), ops[1..]);
      PutAsideOneMore(h, ops, h', rs);
    }
  }

  lemma PutAsideOneMore(h: Handler, ops: seq<Op>, h': Handler, rs: seq<Reply>)
    requires Inv(h) && AllEarly(ops) && ops != []
    requires PutAside(Buffered(h, ops[0]), ops[1..], h', rs)
    ensures PutAside(h, ops, h', [EarlyReply(ops[0])] + rs)
  {
    BufferedAgain(h, ops[0], ops[1..]);
    assert ops == [ops[0]] + ops[1..];
    RepliesOneMore(ops, rs);
  }

  lemma RepliesOneMore(ops: seq<Op>, rs: seq<Reply>)
    requires AllEarly(ops) && ops != [] && |rs| == |ops| - 1
    requires forall i :: 0 <= i < |rs| ==> rs[i] == EarlyReply(ops[1..][i])
    ensures forall i :: 0 <= i < |ops| ==> ([EarlyReply(ops[0])] + rs)[i] == EarlyReply(ops[i])
  {
    forall i | 1 <= i < |ops| ensures ([EarlyReply(ops[0])] + rs)[i] == EarlyReply(ops[i]) {
      assert ops[i] == ops[1..][i - 1];
    }
  }

  /** `h` with one more message put aside, if there is room for it. */
  function Buffered(h: Handler, op: Op): Handler {
    if op.Propose? && |h.proposals| < MAX_PENDING_PROPOSALS then h.(proposals := h.proposals + [op.data])
    else if op.Message? && |h.handshakes| < MAX_PENDING_PROPOSALS then
      h.(handshakes := h.handshakes + [(op.data, op.welcome)])
    else h
  }

  lemma OneIsBuffered(lib: Library, h: Handler, ops: seq<Op>)
    requires Inv(h) && !h.senderSet && ops != [] && Early(ops[0])
    ensures Inv(Buffered(h, ops[0]))
    ensures var (h', rs) := Run(lib, Buffered(h, ops[0]), ops[1..]);
            Run(lib, h, ops) == (h', [EarlyReply(ops[0])] + rs)
  {
    ApplyKeeps(lib, h, ops[0]);
    assert Apply(lib, h, ops[0]) == (Buffered(h, ops[0]), EarlyReply(ops[0]));
  }

  lemma BufferedAgain(h: Handler, op: Op, rest: seq<Op>)
    requires |h.proposals| <= MAX_PENDING_PROPOSALS && |h.handshakes| <= MAX_PENDING_PROPOSALS && Early(op)
    ensures FirstPending(Buffered(h, op).proposals + ProposalsIn(rest)) ==
            FirstPending(h.proposals + ProposalsIn([op] + rest))
    ensures FirstPending(Buffered(h, op).handshakes + MessagesIn(rest)) ==
            FirstPending(h.handshakes + MessagesIn([op] + rest))
  {
    var ps, hs := ProposalsIn(rest), MessagesIn(rest);
    assert ([op] + rest)[1..] == rest;
    assert [] + ps == ps && [] + hs == hs;
    if op.Propose? { PendingAgain(h.proposals, op.data, ps); }
    else { PendingAgain(h.handshakes, (op.data, op.welcome), hs); }
  }

  lemma PendingAgain<T>(s: seq<T>, x: T, rest: seq<T>)
    requires |s| <= MAX_PENDING_PROPOSALS
    ensures FirstPending((if |s| < MAX_PENDING_PROPOSALS then s + [x] else s) + rest) == FirstPending(s + ([x] + rest))
  {
    assert s + ([x] + rest) == (s + [x]) + rest;
    if |s| == MAX_PENDING_PROPOSALS {
      assert (s + rest)[..MAX_PENDING_PROPOSALS] == s;
      assert (s + ([x] + rest))[..MAX_PENDING_PROPOSALS] == s;
    }
  }

  lemma {:induction false} SizesIn(ops: seq<Op>)
    requires AllEarly(ops)
    ensures GoodSizes(ProposalsIn(ops), MessagesIn(ops))
  {
    if ops != [] {
      SizesIn(ops[1..]);
      assert Early(ops[0]);
    }
  }

  /** Draining proposals is delivering them one by one, and every one of them reaches the library once. */
  lemma {:induction false} DrainIsDelivery(lib: Library, h: Handler, ps: seq<Data>)
    requires Inv(h) && h.session && h.senderSet && GoodSizes(ps, [])
    requires NoFailure(Run(lib, h, AsProposals(ps)).1)
    ensures var (h', rs) := Run(lib, h, AsProposals(ps));
            && DrainProposals(lib, h, ps) == (h', Some(AllCommits(rs)))
            && |h'.log| == |h.log| + |ps|
    decreases |ps|
  {
    if ps != [] {
      var ops := AsProposals(ps);
      assert ops[1..] == AsProposals(ps[1..]);
      var rs := Run(lib, h, ops).1;
      assert !rs[0].Failed?;
      var h1 := Apply(lib, h, ops[0]).0;
      ApplyKeeps(lib, h, ops[0]);
      assert rs[1..] == Run(lib, h1, ops[1..]).1;
      DrainIsDelivery(lib, h1, ps[1..]);
    }
  }

  lemma {:induction false} DrainMessagesIsDelivery(lib: Library, h: Handler, hs: seq<(Data, bool)>)
    requires Inv(h) && h.session && h.senderSet && GoodSizes([], hs)
    requires NoFailure(Run(lib, h, AsMessages(hs)).1)
    ensures var (h', rs) := Run(lib, h, AsMessages(hs));
            && DrainHandshakes(lib, h, hs) == (h', true)
            && |h'.log| == |h.log| + |hs|
            && (forall i :: 0 <= i < |hs| ==> rs[i] == TransitionId(Tid(hs[i].0)))
    decreases |hs|
  {
    if hs != [] {
      var h1 := FirstMessage(lib, h, hs);
      DrainMessagesIsDelivery(lib, h1, hs[1..]);
      var rest := Run(lib, h1, AsMessages(hs[1..])).1;
      assert forall i :: 1 <= i < |hs| ==> hs[i] == hs[1..][i - 1];
    }
  }

  /** Delivering messages is delivering the first one and then the rest. */
  lemma FirstMessage(lib: Library, h: Handler, hs: seq<(Data, bool)>) returns (h1: Handler)
    requires Inv(h) && h.session && h.senderSet && hs != [] && GoodSizes([], hs)
    requires NoFailure(Run(lib, h, AsMessages(hs)).1)
    ensures Inv(h1) && h1.session && h1.senderSet && |h1.log| == |h.log| + 1
    ensures DoHandshake(lib, h, hs[0].0, hs[0].1) == (h1, TransitionId(Tid(hs[0].0)))
    ensures var (h', rs) := Run(lib, h1, AsMessages(hs[1..]));
            NoFailure(rs) && Run(lib, h, AsMessages(hs)) == (h', [TransitionId(Tid(hs[0].0))] + rs)
  {
    var ops := AsMessages(hs);
    assert ops[1..] == AsMessages(hs[1..]);
    var rs := Run(lib, h, ops).1;
    assert !rs[0].Failed?;
    h1 := Apply(lib, h, ops[0]).0;
    ApplyKeeps(lib, h, ops[0]);
    assert rs[1..] == Run(lib, h1, ops[1..]).1;
  }

  lemma ProposalIgnoresMessages(lib: Library, h: Handler, p: Data, hs: seq<(Data, bool)>)
    requires p != []
    ensures DoProposals(lib, h.(handshakes := hs), p) ==
            (DoProposals(lib, h, p).0.(handshakes := hs), DoProposals(lib, h, p).1)
  {
  }

  /** Draining proposals neither reads nor writes the other buffer. */
  lemma {:induction false} DrainIgnoresMessages(lib: Library, h: Handler, ps: seq<Data>, hs: seq<(Data, bool)>)
    requires GoodProposals(ps)
    ensures DrainProposals(lib, h.(handshakes := hs), ps) ==
            (DrainProposals(lib, h, ps).0.(handshakes := hs), DrainProposals(lib, h, ps).1)
    decreases |ps|
  {
    if ps != [] {
      ProposalIgnoresMessages(lib, h, ps[0], hs);
      DrainIgnoresMessages(lib, DoProposals(lib, h, ps[0]).0, ps[1..], hs);
    }
  }

  lemma {:induction false} DrainsAskAtMostOnce(lib: Library, h: Handler, ps: seq<Data>, hs: seq<(Data, bool)>)
    requires GoodProposals(ps) && GoodHandshakes(hs)
    ensures |DrainProposals(lib, h, ps).0.log| <= |h.log| + |ps|
    ensures |DrainHandshakes(lib, h, hs).0.log| <= |h.log| + |hs|
    decreases |ps| + |hs|
  {
    if ps != [] { DrainsAskAtMostOnce(lib, DoProposals(lib, h, ps[0]).0, ps[1..], []); }
    if hs != [] { DrainsAskAtMostOnce(lib, DoHandshake(lib, h, hs[0].0, hs[0].1).0, [], hs[1..]); }
  }

  /** The sender arrives first, then every proposal in order, then every handshake message in order. */
  datatype Delivery = Delivery(h: Handler, sender: Reply, proposals: seq<Reply>, messages: seq<Reply>)

  ghost function Deliver(lib: Library, h: Handler, sender: Data, ps: seq<Data>, hs: seq<(Data, bool)>): Delivery
    requires Inv(h)
  {
    ApplyKeeps(lib, h, Sender(sender));
    var (h1, r) := Apply(lib, h, Sender(sender));
    var (h2, rs) := Run(lib, h1, AsProposals(ps));
    var (h3, ts) := Run(lib, h2, AsMessages(hs));
    Delivery(h3, r, rs, ts)
  }

  ghost predicate Succeeds(d: Delivery) { !d.sender.Failed? && NoFailure(d.proposals) && NoFailure(d.messages) }

  /** A sender arriving on buffers `ps` and `hs` does to the handler what it does on empty buffers followed
      by the messages, and returns the commits the proposals would have returned. */
  lemma SenderDrainsLikeDelivery(lib: Library, h: Handler, sender: Data, ps: seq<Data>, hs: seq<(Data, bool)>)
    requires Inv(h) && h.session && !h.senderSet && h.proposals == [] && h.handshakes == []
    requires |sender| <= MAX_DAVE_CONTROL_PAYLOAD_BYTES && GoodSizes(ps, hs)
    requires Succeeds(Deliver(lib, h, sender, ps, hs))
    ensures var d := Deliver(lib, h, sender, ps, hs);
            && ExternalSender(lib, h.(proposals := ps, handshakes := hs), sender) ==
               (d.h, Responses(AllCommits(d.proposals)))
            && |d.h.log| == |h.log| + 1 + |ps| + |hs|
            && (forall i :: 0 <= i < |hs| ==> d.messages[i] == TransitionId(Tid(hs[i].0)))
  {
    ApplyKeeps(lib, h, Sender(sender));
    var h1 := Apply(lib, h, Sender(sender)).0;
    var h2 := Ask(h, SetExternalSender(sender)).(senderSet := true, savedSender := Some(sender), proposals := []);
    assert h1 == h2;
    DrainIsDelivery(lib, h1, ps);
    DrainProposalsEffect(lib, h1, ps);
    DrainIgnoresMessages(lib, h1, ps, hs);
    var h3 := Run(lib, h1, AsProposals(ps)).0;
    DrainMessagesIsDelivery(lib, h3, hs);
    assert h3.(handshakes := hs).(handshakes := []) == h3;
  }

  lemma SenderAsksAtMost(lib: Library, h: Handler, sender: Data)
    requires GoodBuffers(h)
    ensures |ExternalSender(lib, h, sender).0.log| <= |h.log| + 1 + |h.proposals| + |h.handshakes|
  {
    var h2 := Ask(h, SetExternalSender(sender)).(senderSet := true, savedSender := Some(sender), proposals := []);
    DrainsAskAtMostOnce(lib, h2, h.proposals, []);
    var h3 := DrainProposals(lib, h2, h.proposals).0;
    DrainsAskAtMostOnce(lib, h3.(handshakes := []), [], h.handshakes);
  }

  /** Proposals and handshake messages that arrive before the external sender, in any interleaving, end up
      in exactly the state, with exactly the library calls, of the orderly delivery that would succeed, if and
      only if there are at most 64 of each kind. Handshake messages are answered as in the orderly delivery,
      and the commits that answer the proposals come with the sender. */
  lemma BufferingIsTransparent(lib: Library, h: Handler, ops: seq<Op>, sender: Data)
    requires Inv(h) && h.session && !h.senderSet && h.proposals == [] && h.handshakes == []
    requires AllEarly(ops) && |sender| <= MAX_DAVE_CONTROL_PAYLOAD_BYTES
    requires Succeeds(Deliver(lib, h, sender, ProposalsIn(ops), MessagesIn(ops)))
    ensures var d := Deliver(lib, h, sender, ProposalsIn(ops), MessagesIn(ops));
            var (h1, rs) := Run(lib, h, ops);
            var (h2, r) := ExternalSender(lib, h1, sender);
            var small := |ProposalsIn(ops)| <= MAX_PENDING_PROPOSALS && |MessagesIn(ops)| <= MAX_PENDING_PROPOSALS;
            && (forall i :: 0 <= i < |ops| && ops[i].Propose? ==> rs[i] == Response(None))
            && MessageReplies(ops, rs) == d.messages
            && (small <==> h2 == d.h)
            && (small ==> r == Responses(AllCommits(d.proposals)))
  {
    var ps, hs := ProposalsIn(ops), MessagesIn(ops);
    EarlyMessagesAreBuffered(lib, h, ops);
    SizesIn(ops);
    assert h.proposals + ps == ps && h.handshakes + hs == hs;
    SenderDrainsLikeDelivery(lib, h, sender, ps, hs);
    var (h1, rs) := Run(lib, h, ops);
    SenderAsksAtMost(lib, h1, sender);
    EarlyMessageReplies(ops, rs);
    assert MessageReplies(ops, rs) == Deliver(lib, h, sender, ps, hs).messages;
  }

  // ---------------------------------------------------------------- the handler object

  class DaveHandler {
    const lib: Library
    var session: bool
    /** every call made to the library so far; it determines the state of the opaque session */
    var log: seq<MlsCall>
    var version: nat
    var required: bool
    var prepared: nat
    var staged: map<nat, nat>
    var senderSet: bool
    var savedSender: Option<Data>
    var proposals: seq<Data>
    var handshakes: seq<(Data, bool)>
    var wasReady: bool
    var users: set<nat>
    var cachedIds: seq<nat>

    ghost function View(): Handler
      reads this
    {
      Handler(session, log, version, required, prepared, staged, senderSet, savedSender,
              proposals, handshakes, wasReady, users, cachedIds)
    }

    constructor (lib: Library, user: nat)
      ensures this.lib == lib && View() == New(user)
    {
      this.lib := lib;
      session, log, version, required, prepared, staged := false, [], 0, false, 0, map[];
      senderSet, savedSender, proposals, handshakes, wasReady := false, None, [], [], false;
      users, cachedIds := {user}, [user];
    }

    method AddUsers(ids: seq<nat>)
      modifies this
      ensures View() == WithUsers(old(View()), old(users) + (set u | u in ids))
    {
      var i := 0;
      while i < |ids|
        invariant 0 <= i <= |ids|
        invariant View() == old(View()).(users := old(users) + (set u | u in ids[..i]))
      {
        assert ids[..i + 1] == ids[..i] + [ids[i]];
        users := users + {ids[i]};
        i := i + 1;
      }
      assert ids[..i] == ids;
      UpdateUserCache();
    }

    method RemoveUser(id: nat)
      modifies this
      ensures View() == if id in old(users) then WithUsers(old(View()), old(users) - {id}) else old(View())
    {
      if id in users {
        users := users - {id};
        UpdateUserCache();
      }
    }

    /** Collect the users in whatever order the set yields them, inserting each at its place. */
    method UpdateUserCache()
      modifies this`cachedIds
      ensures View() == WithUsers(old(View()), users)
    {
      cachedIds := [];
      var left := users;
      while left != {}
        invariant left <= users
        invariant IsSortedIds(cachedIds, users - left)
        decreases left
      {
        var u :| u in left;
        left := left - {u};
        var k := 0;
        while k < |cachedIds| && cachedIds[k] < u
          invariant 0 <= k <= |cachedIds|
          invariant forall i :: 0 <= i < k ==> cachedIds[i] < u
        {
          k := k + 1;
        }
        InsertSorted(cachedIds, users - left - {u}, u, k);
        assert users - left - {u} + {u} == users - left;
        cachedIds := cachedIds[..k] + [u] + cachedIds[k..];
      }
      assert users - {} == users;
      SortedIdsUnique(cachedIds, SortedIds(users), users);
    }

    method ResetAll()
      modifies this
      ensures View() == Reset(old(View()))
    {
      version, prepared, staged, session := 0, 0, map[], false;
      ForgetSender();
    }

    method ForgetSender()
      modifies this
      ensures View() == old(View()).(senderSet := false, savedSender := None, proposals := [], handshakes := [],
                                     wasReady := false)
    {
      senderSet, savedSender, proposals, handshakes, wasReady := false, None, [], [], false;
    }

    method AskLibrary(c: MlsCall) returns (a: Answer)
      modifies this`log
      ensures log == old(log) + [c] && a == lib.answer(log)
    {
      log := log + [c];
      a := lib.answer(log);
    }

    method Setup(v: nat) returns (r: Reply)
      modifies this
      ensures (View(), r) == SetupSession(lib, old(View()), v)
    {
      if v == 0 {
        ResetAll();
        required := false;
        return Payload([]);
      }
      required := true;
      if v != DAVE_INITIAL_VERSION {
        return Failed;
      }
      r := Open(v);
    }

    method Open(v: nat) returns (r: Reply)
      modifies this
      ensures (View(), r) == OpenSession(lib, old(View()), v)
    {
      var open := if !session then Create(v) else if version == 0 then Reinit(v) else ReinitForTransition(v);
      var a := AskLibrary(open);
      if a.Refused? {
        return Failed;
      }
      Start(v);
      r := AskKeyPackage();
    }

    method Start(v: nat)
      modifies this
      ensures View() == Begin(old(View()), v)
    {
      senderSet := session && savedSender.Some?;
      session := true;
      prepared := v;
      proposals, handshakes, wasReady := [], [], false;
    }

    method AskKeyPackage() returns (r: Reply)
      modifies this
      ensures (View(), r) == FetchKeyPackage(lib, old(View()))
    {
      var a := AskLibrary(CreateKeyPackage);
      if a.Refused? {
        return Failed;
      }
      r := Payload(if a.output.Some? then a.output.value else []);
    }

    method Stage(id: nat, v: nat) returns (r: Reply)
      modifies this
      ensures (View(), r) == PrepareTransition(old(View()), id, v)
    {
      if v != 0 && v != DAVE_INITIAL_VERSION {
        return Acknowledge(false);
      }
      staged := staged[id := v];
      if id == 0 {
        Execute(0);
        return Acknowledge(false);
      }
      r := Acknowledge(true);
    }

    method Execute(id: nat)
      modifies this
      ensures View() == ExecuteTransition(old(View()), id)
    {
      if id in staged {
        var next := staged[id];
        staged := staged - {id};
        if session {
          var _ := AskLibrary(if next == 0 then DiscardStaged(id) else ExecuteStaged(id));
        }
        version := next;
        required := next != 0;
      }
    }

    method NewEpoch(epoch: nat, v: nat) returns (r: Reply)
      modifies this
      ensures (View(), r) == PrepareEpoch(lib, old(View()), epoch, v)
    {
      if v == 0 || v > DAVE_INITIAL_VERSION {
        return Epoch(Ignored);
      }
      if epoch == 1 {
        var s := Setup(v);
        return Epoch(if s.Payload? then KeyPackage(s.data) else Ignored);
      }
      if epoch == 0 || !session {
        return Epoch(Ignored);
      }
      prepared := v;
      r := Epoch(Ready);
    }

    method ProcessSender(data: Data) returns (r: Reply)
      requires GoodBuffers(View())
      modifies this
      ensures (View(), r) == ExternalSender(lib, old(View()), data)
    {
      if |data| > MAX_DAVE_CONTROL_PAYLOAD_BYTES {
        return Failed;
      }
      if (senderSet && savedSender == Some(data)) || !session {
        return Responses([]);
      }
      var a := AskLibrary(SetExternalSender(data));
      if a.Refused? {
        return Failed;
      }
      senderSet, savedSender := true, Some(data);
      r := DrainBuffers();
    }

    method DrainBuffers() returns (r: Reply)
      requires GoodBuffers(View())
      modifies this
      ensures var h := old(View());
              var (h1, commits) := DrainProposals(lib, h.(proposals := []), h.proposals);
              if commits.None? then (View(), r) == (h1, Failed)
              else
                var (h2, ok) := DrainHandshakes(lib, h1.(handshakes := []), h.handshakes);
                (View(), r) == (h2, if ok then Responses(commits.value) else Failed)
    {
      var taken := proposals;
      proposals := [];
      DrainProposalsEffect(lib, View(), taken);
      var commits := DrainProposalsNow(taken);
      if commits.None? {
        return Failed;
      }
      var waiting := handshakes;
      handshakes := [];
      var ok := DrainHandshakesNow(waiting);
      r := if ok then Responses(commits.value) else Failed;
    }

    method DrainProposalsNow(ps: seq<Data>) returns (commits: Option<seq<Data>>)
      requires GoodProposals(ps)
      modifies this
      ensures (View(), commits) == DrainProposals(lib, old(View()), ps)
    {
      var collected: seq<Data> := [];
      var i := 0;
      assert ps[0..] == ps;
      ghost var all := DrainProposals(lib, View(), ps).1;
      assert all.Some? ==> [] + all.value == all.value;
      while i < |ps|
        invariant 0 <= i <= |ps|
        invariant var (h, rest) := DrainProposals(lib, View(), ps[i..]);
                  DrainProposals(lib, old(View()), ps) ==
                  (h, if rest.None? then None else Some(collected + rest.value))
      {
        assert ps[i..][1..] == ps[i + 1..];
        var r := ProposalsNow(ps[i]);
        if r.Failed? {
          return None;
        }
        ghost var rest := DrainProposals(lib, View(), ps[i + 1..]).1;
        assert rest.Some? ==> collected + (Commits(r) + rest.value) == (collected + Commits(r)) + rest.value;
        collected := collected + Commits(r);
        i := i + 1;
      }
      assert ps[i..] == [] && collected + [] == collected;
      commits := Some(collected);
    }

    method ProposalsNow(data: Data) returns (r: Reply)
      requires data != []
      modifies this
      ensures (View(), r) == DoProposals(lib, old(View()), data)
    {
      if data[0] > 1 {
        return Failed;
      }
      var a := AskLibrary(ProcessProposals(data[0] == 0, data[1..], cachedIds));
      r := if a.Refused? then Failed else Response(a.output);
    }

    method DrainHandshakesNow(hs: seq<(Data, bool)>) returns (ok: bool)
      requires GoodHandshakes(hs)
      modifies this
      ensures (View(), ok) == DrainHandshakes(lib, old(View()), hs)
    {
      var i := 0;
      while i < |hs|
        invariant 0 <= i <= |hs|
        invariant DrainHandshakes(lib, View(), hs[i..]) == DrainHandshakes(lib, old(View()), hs)
      {
        assert hs[i..][1..] == hs[i + 1..];
        var r := HandshakeNow(hs[i].0, hs[i].1);
        if r.Failed? {
          return false;
        }
        i := i + 1;
      }
      ok := true;
    }

    method HandshakeNow(data: Data, welcome: bool) returns (r: Reply)
      requires |data| >= 2
      modifies this
      ensures (View(), r) == DoHandshake(lib, old(View()), data, welcome)
    {
      var id := Tid(data);
      var v := if id != 0 && id in staged then staged[id] else prepared;
      if session {
        var a := AskLibrary(if id == 0 then ProcessHandshake(welcome, data[2..])
                            else ProcessHandshakeFor(welcome, data[2..], id));
        if a.Refused? {
          return Failed;
        }
        if id == 0 {
          version := v;
        } else {
          staged := staged[id := v];
        }
      }
      r := TransitionId(id);
    }

    method ProcessMessage(data: Data, welcome: bool) returns (r: Reply)
      modifies this
      ensures (View(), r) == Handshake(lib, old(View()), data, welcome)
    {
      if |data| < 2 || |data| > MAX_DAVE_CONTROL_PAYLOAD_BYTES {
        return Failed;
      }
      if !senderSet {
        if |handshakes| < MAX_PENDING_PROPOSALS {
          handshakes := handshakes + [(data, welcome)];
        }
        return TransitionId(Tid(data));
      }
      r := HandshakeNow(data, welcome);
    }

    method Propose(data: Data) returns (r: Reply)
      modifies this
      ensures (View(), r) == Proposals(lib, old(View()), data)
    {
      if data == [] || |data| > MAX_DAVE_CONTROL_PAYLOAD_BYTES {
        return Failed;
      }
      if !senderSet {
        if |proposals| < MAX_PENDING_PROPOSALS {
          proposals := proposals + [data];
        }
        return Response(None);
      }
      if !session {
        return Response(None);
      }
      r := ProposalsNow(data);
    }

    method Send(packet: Data) returns (r: Reply)
      modifies this
      ensures (View(), r) == EncryptOpus(lib, old(View()), packet)
    {
      if !required {
        return Plaintext(packet);
      }
      if !(version != 0 && session && lib.ready(log)) {
        return Failed;
      }
      wasReady := true;
      var a := AskLibrary(Encrypt(packet));
      r := if a.Refused? then Failed else Ciphertext(if a.output.Some? then a.output.value else []);
    }
  }

  lemma InsertSorted(ids: seq<nat>, users: set<nat>, u: nat, k: nat)
    requires IsSortedIds(ids, users) && u !in users && k <= |ids|
    requires forall i :: 0 <= i < k ==> ids[i] < u
    requires k < |ids| ==> ids[k] >= u
    ensures IsSortedIds(ids[..k] + [u] + ids[k..], users + {u})
  {
    var r := ids[..k] + [u] + ids[k..];
    assert k < |ids| ==> ids[k] in users;
    assert forall x :: x in r <==> x in ids[..k] || x == u || x in ids[k..];
    assert ids == ids[..k] + ids[k..];
    assert forall x :: x in ids <==> x in ids[..k] || x in ids[k..];
  }
}
