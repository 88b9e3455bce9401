/** Connecting, closing, resuming and expiring WebSocket sessions (`resolve_session` and
    `handle_session_close` in api/ws/handler.rs). Connection handlers and expiry timers run concurrently;
    every access to a map, a lock or an atomic is one step. */
module SessionResume {
  import opened Common

  /** A session object. `sender` is the connection whose channel it writes to. */
  datatype Session = Session(sender: nat, paused: bool, generation: nat, resumable: bool, shutdowns: nat)

  /** Where a connection handler is. Resuming: claimed from the resumable map, generation bumped, channel
      attached, then listed (Open). Closing: the flag has been read (Pausing or Dropping), then paused,
      unlisted, a leftover of the same id evicted, generation bumped, parked, and the timer armed. */
  datatype Phase =
    | Claimed(sid: nat) | Bumped(sid: nat) | Attached(sid: nat)
    | Open(sid: nat)
    | Pausing(sid: nat) | Unlisting(sid: nat) | Evicting(sid: nat) | Bumping(sid: nat)
    | Parking(sid: nat, gen: nat) | Arming(sid: nat, gen: nat)
    | Dropping(sid: nat)
    | Gone(sid: nat)

  /** `live` and `parked` are the keys of the two session maps; ids are never reused, so a key determines
      the object. `timers` are the pending expiry tasks with the generation each was armed for, `windows`
      the generation under which a session was last parked. */
  datatype State = State(
    store: map<nat, Session>,
    live: set<nat>,
    parked: set<nat>,
    conns: map<nat, Phase>,
    timers: set<(nat, nat)>,
    windows: map<nat, nat>)

  const INIT := State(map[], {}, {}, map[], {}, map[])

  datatype Event =
    | Connect(c: nat, wanted: Option<nat>, newId: nat)
    | Advance(c: nat)
    | Close(c: nat)
    | SetResumable(sid: nat, flag: bool)
    | Fire(sid: nat, gen: nat)

  function SetSession(s: State, sid: nat, x: Session): State { s.(store := s.store[sid := x]) }

  function SetPhase(s: State, c: nat, p: Phase): State { s.(conns := s.conns[c := p]) }

  function Shutdown(s: State, sid: nat): State
    requires sid in s.store
  {
    SetSession(s, sid, s.store[sid].(shutdowns := s.store[sid].shutdowns + 1))
  }

  /** The first step of `resolve_session`: take the session out of the resumable map, or make one. */
  function ConnectStep(s: State, c: nat, wanted: Option<nat>, newId: nat): State {
    if wanted.Some? && wanted.value in s.parked then
      SetPhase(s.(parked := s.parked - {wanted.value}), c, Claimed(wanted.value))
    else
      SetPhase(SetSession(s, newId, Session(c, false, 0, false, 0)).(live := s.live + {newId}), c, Open(newId))
  }

  function AdvanceStep(s: State, c: nat): State
    requires c in s.conns && s.conns[c].sid in s.store
  {
    var sid := s.conns[c].sid;
    var x := s.store[sid];
    match s.conns[c]
    case Claimed(_) => SetPhase(SetSession(s, sid, x.(generation := x.generation + 1)), c, Bumped(sid))
    case Bumped(_) => SetPhase(SetSession(s, sid, x.(sender := c, paused := false)), c, Attached(sid))
    case Attached(_) => SetPhase(s.(live := s.live + {sid}), c, Open(sid))
    case Open(_) => s
    case Pausing(_) =>
      if x.sender != c then SetPhase(s, c, Gone(sid))
      else SetPhase(SetSession(s, sid, x.(paused := true)), c, Unlisting(sid))
    case Unlisting(_) =>
      SetPhase(if sid in s.live && x.sender == c then s.(live := s.live - {sid}) else s, c, Evicting(sid))
    case Evicting(_) =>
      SetPhase(if sid in s.parked then Shutdown(s.(parked := s.parked - {sid}), sid) else s, c, Bumping(sid))
    case Bumping(_) =>
      SetPhase(SetSession(s, sid, x.(generation := x.generation + 1)), c, Parking(sid, x.generation + 1))
    case Parking(_, g) =>
      SetPhase(s.(parked := s.parked + {sid}, windows := s.windows[sid := g]), c, Arming(sid, g))
    case Arming(_, g) => SetPhase(s.(timers := s.timers + {(sid, g)}), c, Gone(sid))
    case Dropping(_) =>
      SetPhase(if sid in s.live then Shutdown(s.(live := s.live - {sid}), sid) else s, c, Gone(sid))
    case Gone(_) => s
  }

  /** The first step of `handle_session_close`: is the session resumable? */
  function CloseStep(s: State, c: nat): State
    requires c in s.conns && s.conns[c].sid in s.store
  {
    var sid := s.conns[c].sid;
    SetPhase(s, c, if s.store[sid].resumable then Pausing(sid) else Dropping(sid))
  }

  /** A timer ends the window only if the session is still parked, paused and of the same generation. */
  predicate Expires(s: State, sid: nat, gen: nat) {
    sid in s.parked && sid in s.store && s.store[sid].generation == gen && s.store[sid].paused
  }

  function FireStep(s: State, sid: nat, gen: nat): State {
    var s1 := s.(timers := s.timers - {(sid, gen)});
    if Expires(s, sid, gen) then Shutdown(s1.(parked := s.parked - {sid}), sid) else s1
  }

  predicate Enabled(s: State, e: Event) {
    match e
    case Connect(c, _, newId) => c !in s.conns && newId !in s.store
    case Advance(c) => c in s.conns && s.conns[c].sid in s.store
    case Close(c) => c in s.conns && s.conns[c].Open? && s.conns[c].sid in s.store
    case SetResumable(sid, _) => sid in s.store
    case Fire(sid, gen) => (sid, gen) in s.timers
  }

  function Step(s: State, e: Event): State
    requires Enabled(s, e)
  {
    match e
    case Connect(c, wanted, newId) => ConnectStep(s, c, wanted, newId)
    case Advance(c) => AdvanceStep(s, c)
    case Close(c) => CloseStep(s, c)
    case SetResumable(sid, flag) => SetSession(s, sid, s.store[sid].(resumable := flag))
    case Fire(sid, gen) => FireStep(s, sid, gen)
  }

  // ---------------------------------------------------------------- what every step keeps

  /** The handler owns its session: from claiming or creating it until it has parked or dropped it. */
  predicate Owns(p: Phase) { !p.Arming? && !p.Gone? }

  /** The handler's session is in the map of live sessions. */
  predicate Listed(p: Phase) { p.Open? || p.Pausing? || p.Unlisting? || p.Dropping? }

  predicate ConnGood(s: State, c: nat)
    requires c in s.conns
  {
    var p := s.conns[c];
    && p.sid in s.store
    && var x := s.store[p.sid];
       && (Owns(p) ==> x.shutdowns == 0 && p.sid !in s.parked)
       && (Owns(p) && !p.Claimed? && !p.Bumped? ==> x.sender == c)
       && (Listed(p) ==> p.sid in s.live)
       && (Owns(p) && !Listed(p) ==> p.sid !in s.live)
       && (p.Unlisting? || p.Evicting? || p.Bumping? || p.Parking? ==> x.paused)
       && (p.Parking? ==> p.gen == x.generation)
       && (p.Parking? && p.sid in s.windows ==> s.windows[p.sid] < p.gen)
       && (p.Arming? ==> p.sid in s.windows && p.gen <= s.windows[p.sid])
  }

  /** Someone will expire the current window of `sid`. */
  ghost predicate WillExpire(s: State, sid: nat)
    requires sid in s.store
  {
    || (sid, s.store[sid].generation) in s.timers
    || exists c :: c in s.conns && s.conns[c] == Arming(sid, s.store[sid].generation)
  }

  /** A live session has an owner that listed it. */
  ghost predicate LiveGood(s: State, sid: nat) {
    sid in s.store && exists c :: c in s.conns && Listed(s.conns[c]) && s.conns[c].sid == sid
  }

  /** A parked session is paused, carries the generation of its window, and will expire. */
  ghost predicate ParkedGood(s: State, sid: nat) {
    && sid in s.store && sid !in s.live && s.store[sid].paused && s.store[sid].shutdowns == 0
    && sid in s.windows && s.windows[sid] == s.store[sid].generation
    && WillExpire(s, sid)
  }

  ghost predicate OneOwner(s: State) {
    forall c, d :: c in s.conns && d in s.conns && c != d && Owns(s.conns[c]) && Owns(s.conns[d]) ==>
      s.conns[c].sid != s.conns[d].sid
  }

  /** Timers belong to windows that have been opened, and windows never run ahead of their session. */
  ghost predicate TimersGood(s: State) {
    && (forall t :: t in s.timers ==> t.0 in s.windows && t.1 <= s.windows[t.0])
    && (forall sid :: sid in s.windows ==> sid in s.store && s.windows[sid] <= s.store[sid].generation)
  }

  ghost predicate Inv(s: State) {
    && (forall c :: c in s.conns ==> ConnGood(s, c))
    && OneOwner(s)
    && (forall sid :: sid in s.live ==> LiveGood(s, sid))
    && (forall sid :: sid in s.parked ==> ParkedGood(s, sid))
    && TimersGood(s)
    && (forall sid :: sid in s.store ==> s.store[sid].shutdowns <= 1)
  }

  /** Everything that does not concern connection `c` and session `sid` is as before. */
  ghost predicate OnlyTouches(s: State, s': State, c: nat, sid: nat) {
    && c in s'.conns && s'.conns == s.conns[c := s'.conns[c]] && s'.conns[c].sid == sid
    && (c in s.conns ==> s.conns[c].sid == sid)
    && sid in s'.store && s'.store == s.store[sid := s'.store[sid]]
    && (forall x :: x != sid ==> (x in s'.live <==> x in s.live) && (x in s'.parked <==> x in s.parked))
    && (s'.windows == s.windows || (sid in s'.windows && s'.windows == s.windows[sid := s'.windows[sid]]))
    && s.timers <= s'.timers
    && (forall t :: t in s'.timers ==> t in s.timers || t.0 == sid)
  }

  /** The same, to be looked into only where needed. */
  ghost predicate Confined(s: State, s': State, c: nat, sid: nat) {
    forall w :: Look(w) ==> OnlyTouches(s, s', c, sid)
  }

  lemma ConfinedTwice(s: State, s1: State, s2: State, c: nat, sid: nat)
    requires Confined(s, s1, c, sid) && Confined(s1, s2, c, sid)
    ensures Confined(s, s2, c, sid)
  {
    assert Look(0);
    assert s2.conns == s.conns[c := s2.conns[c]] && s2.store == s.store[sid := s2.store[sid]];
    if s2.windows != s.windows { assert s2.windows == s.windows[sid := s2.windows[sid]]; }
  }

  lemma AdvanceIsConfined(s: State, c: nat)
    requires c in s.conns && s.conns[c].sid in s.store
    ensures Confined(s, AdvanceStep(s, c), c, s.conns[c].sid)
  {
    var s', sid := AdvanceStep(s, c), s.conns[c].sid;
    assert s'.conns == s.conns[c := s'.conns[c]] && s'.store == s.store[sid := s'.store[sid]];
  }

  lemma CloseIsConfined(s: State, c: nat)
    requires c in s.conns && s.conns[c].sid in s.store
    ensures Confined(s, CloseStep(s, c), c, s.conns[c].sid)
  {
    assert s.store == s.store[s.conns[c].sid := s.store[s.conns[c].sid]];
  }

  lemma ConnectIsConfined(s: State, c: nat, wanted: Option<nat>, newId: nat)
    requires Inv(s) && c !in s.conns && newId !in s.store
    ensures var sid := if wanted.Some? && wanted.value in s.parked then wanted.value else newId;
            Confined(s, ConnectStep(s, c, wanted, newId), c, sid)
  {
    var s' := ConnectStep(s, c, wanted, newId);
    if wanted.Some? && wanted.value in s.parked {
      assert ParkedGood(s, wanted.value);
      assert s'.store == s.store[wanted.value := s'.store[wanted.value]];
    }
  }

  /** What is left to show for a step of connection `c` on session `sid`. */
  ghost predicate LocallyGood(s: State, s': State, c: nat, sid: nat)
    requires OnlyTouches(s, s', c, sid)
  {
    && ConnGood(s', c)
    // nobody else owns the session, so others that mention it have at most a timer left to arm
    && (forall d :: d in s.conns && d != c && s.conns[d].sid == sid ==> !Owns(s.conns[d]))
    && (sid in s.store ==> s'.store[sid].generation >= s.store[sid].generation)
    && s'.store[sid].shutdowns <= 1
    && (sid in s'.live ==> Listed(s'.conns[c]))
    && (sid in s'.parked ==> ParkedGood(s', sid))
    && (sid in s'.windows ==> s'.windows[sid] <= s'.store[sid].generation)
    && (sid in s.windows ==> sid in s'.windows && s'.windows[sid] >= s.windows[sid])
    && (forall t :: t in s'.timers && t !in s.timers ==> sid in s'.windows && t.1 <= s'.windows[sid])
  }

  lemma LocalStepKeeps(s: State, s': State, c: nat, sid: nat)
    requires Inv(s) && OnlyTouches(s, s', c, sid) && LocallyGood(s, s', c, sid)
    requires c in s.conns && s.conns[c].Arming? ==> (sid, s.conns[c].gen) in s'.timers
    ensures Inv(s')
  {
    forall d | d in s'.conns ensures ConnGood(s', d) {
      if d != c { assert ConnGood(s, d); }
    }
    LiveKept(s, s', c, sid);
    forall x | x in s'.parked && x != sid ensures ParkedGood(s', x) {
      assert ParkedGood(s, x);
      WillExpireKept(s, s', x);
    }
  }

  lemma LiveKept(s: State, s': State, c: nat, sid: nat)
    requires Inv(s) && OnlyTouches(s, s', c, sid) && LocallyGood(s, s', c, sid)
    ensures forall x :: x in s'.live ==> LiveGood(s', x)
  {
    forall x | x in s'.live ensures LiveGood(s', x) {
      if x == sid {
        assert s'.conns[c].sid == x;
      } else {
        assert LiveGood(s, x);
        var d :| d in s.conns && Listed(s.conns[d]) && s.conns[d].sid == x;
        assert s'.conns[d] == s.conns[d];
      }
    }
  }

  /** Timers only disappear by firing, and a handler about to arm one is left alone by the others. */
  lemma WillExpireKept(s: State, s': State, sid: nat)
    requires sid in s.store && sid in s'.store && WillExpire(s, sid)
    requires s'.store[sid].generation == s.store[sid].generation
    requires s.timers <= s'.timers
    requires forall d :: d in s.conns && s.conns[d].Arming? && s.conns[d].sid == sid ==>
               || (d in s'.conns && s'.conns[d] == s.conns[d])
               || (sid, s.conns[d].gen) in s'.timers
    ensures WillExpire(s', sid)
  {
    if (sid, s.store[sid].generation) !in s.timers {
      var d :| d in s.conns && s.conns[d] == Arming(sid, s.store[sid].generation);
      assert (d in s'.conns && s'.conns[d] == s.conns[d]) || (sid, s.conns[d].gen) in s'.timers;
    }
  }

  lemma NobodyElse(s: State, c: nat)
    requires Inv(s) && c in s.conns && Owns(s.conns[c])
    ensures forall d :: d in s.conns && d != c && s.conns[d].sid == s.conns[c].sid ==> !Owns(s.conns[d])
  {
  }

  lemma NobodyOwnsParked(s: State, sid: nat)
    requires Inv(s) && sid in s.parked
    ensures forall d :: d in s.conns && s.conns[d].sid == sid ==> !Owns(s.conns[d])
  {
    forall d | d in s.conns && s.conns[d].sid == sid ensures !Owns(s.conns[d]) {
      assert ConnGood(s, d);
    }
  }

  lemma ConnectKeeps(s: State, c: nat, wanted: Option<nat>, newId: nat)
    requires Inv(s) && c !in s.conns && newId !in s.store
    ensures Inv(ConnectStep(s, c, wanted, newId))
  {
    var s' := ConnectStep(s, c, wanted, newId);
    if wanted.Some? && wanted.value in s.parked {
      assert ParkedGood(s, wanted.value);
      NobodyOwnsParked(s, wanted.value);
      assert s'.store == s.store[wanted.value := s.store[wanted.value]];
      LocalStepKeeps(s, s', c, wanted.value);
    } else {
      forall d | d in s.conns ensures s.conns[d].sid != newId { assert ConnGood(s, d); }
      assert newId in s.parked ==> ParkedGood(s, newId);
      LocalStepKeeps(s, s', c, newId);
    }
  }

  /** Resuming: nothing but the owner's own session moves. */
  lemma ResumeKeeps(s: State, c: nat)
    requires Inv(s) && c in s.conns && s.conns[c].sid in s.store
    requires s.conns[c].Claimed? || s.conns[c].Bumped? || s.conns[c].Attached?
    ensures Inv(AdvanceStep(s, c))
  {
    assert ConnGood(s, c);
    NobodyElse(s, c);
    var sid, s' := s.conns[c].sid, AdvanceStep(s, c);
    assert s.store == s.store[sid := s.store[sid]];
    LocalStepKeeps(s, s', c, sid);
  }

  lemma CloseKeeps(s: State, c: nat)
    requires Inv(s) && c in s.conns && s.conns[c].sid in s.store
    requires s.conns[c].Pausing? || s.conns[c].Unlisting? || s.conns[c].Evicting? || s.conns[c].Dropping?
    ensures Inv(AdvanceStep(s, c))
  {
    assert ConnGood(s, c);
    NobodyElse(s, c);
    var sid, s' := s.conns[c].sid, AdvanceStep(s, c);
    assert s.store == s.store[sid := s.store[sid]];
    LocalStepKeeps(s, s', c, sid);
  }

  lemma ParkKeeps(s: State, c: nat)
    requires Inv(s) && c in s.conns && s.conns[c].sid in s.store
    requires s.conns[c].Bumping? || s.conns[c].Parking?
    ensures Inv(AdvanceStep(s, c))
  {
    assert ConnGood(s, c);
    NobodyElse(s, c);
    var sid, s' := s.conns[c].sid, AdvanceStep(s, c);
    assert s.store == s.store[sid := s.store[sid]];
    assert s.conns[c].Parking? ==> s'.conns[c] == Arming(sid, s'.store[sid].generation);
    LocalStepKeeps(s, s', c, sid);
  }

  /** Arming: the handler no longer owns the session, which may have been resumed meanwhile. */
  lemma ArmKeeps(s: State, c: nat)
    requires Inv(s) && c in s.conns && s.conns[c].sid in s.store && s.conns[c].Arming?
    ensures Inv(AdvanceStep(s, c))
  {
    assert ConnGood(s, c);
    var sid, s' := s.conns[c].sid, AdvanceStep(s, c);
    forall d | d in s'.conns ensures ConnGood(s', d) {
      if d != c { assert ConnGood(s, d); }
    }
    forall x | x in s'.live ensures LiveGood(s', x) {
      assert LiveGood(s, x);
      var d :| d in s.conns && Listed(s.conns[d]) && s.conns[d].sid == x;
      assert s'.conns[d] == s.conns[d];
    }
    forall x | x in s'.parked ensures ParkedGood(s', x) {
      assert ParkedGood(s, x);
      WillExpireKept(s, s', x);
    }
  }

  lemma CloseBeginsKeeps(s: State, c: nat)
    requires Inv(s) && c in s.conns && s.conns[c].sid in s.store && s.conns[c].Open?
    ensures Inv(CloseStep(s, c))
  {
    assert ConnGood(s, c);
    NobodyElse(s, c);
    var sid := s.conns[c].sid;
    assert s.store == s.store[sid := s.store[sid]];
    LocalStepKeeps(s, CloseStep(s, c), c, sid);
  }

  lemma FlagKeeps(s: State, sid: nat, flag: bool)
    requires Inv(s) && sid in s.store
    ensures Inv(SetSession(s, sid, s.store[sid].(resumable := flag)))
  {
    var s' := SetSession(s, sid, s.store[sid].(resumable := flag));
    forall d | d in s'.conns ensures ConnGood(s', d) { assert ConnGood(s, d); }
    forall x | x in s'.live ensures LiveGood(s', x) {
      assert LiveGood(s, x);
    }
    forall x | x in s'.parked ensures ParkedGood(s', x) {
      assert ParkedGood(s, x);
      WillExpireKept(s, s', x);
    }
  }

  lemma FireKeeps(s: State, sid: nat, gen: nat)
    requires Inv(s) && (sid, gen) in s.timers
    ensures Inv(FireStep(s, sid, gen))
  {
    var s' := FireStep(s, sid, gen);
    if sid in s.parked { NobodyOwnsParked(s, sid); }
    forall d | d in s'.conns ensures ConnGood(s', d) { assert ConnGood(s, d); }
    forall x | x in s'.live ensures LiveGood(s', x) { assert LiveGood(s, x); }
    forall x | x in s'.parked ensures ParkedGood(s', x) {
      assert ParkedGood(s, x);
      if !(x == sid && gen == s.store[x].generation) {
        StillExpires(s, s', x);
      }
    }
  }

  lemma StillExpires(s: State, s': State, x: nat)
    requires x in s.store && x in s'.store && WillExpire(s, x) && s'.conns == s.conns
    requires s'.store[x].generation == s.store[x].generation
    requires (x, s.store[x].generation) in s.timers ==> (x, s.store[x].generation) in s'.timers
    ensures WillExpire(s', x)
  {
  }

  lemma StepKeeps(s: State, e: Event)
    requires Inv(s) && Enabled(s, e)
    ensures Inv(Step(s, e))
  {
    match e
    case Connect(c, wanted, newId) => ConnectKeeps(s, c, wanted, newId);
    case Close(c) => CloseBeginsKeeps(s, c);
    case SetResumable(sid, flag) => FlagKeeps(s, sid, flag);
    case Fire(sid, gen) => FireKeeps(s, sid, gen);
    case Advance(c) =>
      var p := s.conns[c];
      if p.Claimed? || p.Bumped? || p.Attached? { ResumeKeeps(s, c); }
      else if p.Pausing? || p.Unlisting? || p.Evicting? || p.Dropping? { CloseKeeps(s, c); }
      else if p.Bumping? || p.Parking? { ParkKeeps(s, c); }
      else if p.Arming? { ArmKeeps(s, c); }
  }

  // ---------------------------------------------------------------- every interleaving

  predicate ValidRun(s: State, evs: seq<Event>)
    decreases |evs|
  {
    evs != [] ==> Enabled(s, evs[0]) && ValidRun(Step(s, evs[0]), evs[1..])
  }

  function RunState(s: State, evs: seq<Event>): State
    requires ValidRun(s, evs)
    decreases |evs|
  {
    if evs == [] then s else RunState(Step(s, evs[0]), evs[1..])
  }

  lemma {:induction false} RunKeeps(s: State, evs: seq<Event>)
    requires Inv(s) && ValidRun(s, evs)
    ensures Inv(RunState(s, evs))
    decreases |evs|
  {
    if evs != [] {
      StepKeeps(s, evs[0]);
      RunKeeps(Step(s, evs[0]), evs[1..]);
    }
  }

  /** In every interleaving a session has at most one owning connection, sits in at most one of the two
      maps, and is shut down at most once, after which nothing owns, lists or parks it any more. */
  lemma OneOwnerOneMapOneShutdown(evs: seq<Event>)
    requires ValidRun(INIT, evs)
    ensures var s := RunState(INIT, evs);
            && OneOwner(s)
            && s.live !! s.parked
            && (forall sid :: sid in s.store ==>
                  && s.store[sid].shutdowns <= 1
                  && (s.store[sid].shutdowns == 1 ==>
                        && sid !in s.live && sid !in s.parked
                        && forall c :: c in s.conns && Owns(s.conns[c]) ==> s.conns[c].sid != sid))
  {
    RunKeeps(INIT, evs);
    var s := RunState(INIT, evs);
    forall sid | sid in s.live ensures s.store[sid].shutdowns == 0 {
      assert LiveGood(s, sid);
      var c :| c in s.conns && Listed(s.conns[c]) && s.conns[c].sid == sid;
      assert ConnGood(s, c);
    }
    forall sid | sid in s.parked ensures sid !in s.live && s.store[sid].shutdowns == 0 {
      assert ParkedGood(s, sid);
    }
    forall c | c in s.conns && Owns(s.conns[c]) ensures s.store[s.conns[c].sid].shutdowns == 0 {
      assert ConnGood(s, c);
    }
  }

  /** A pending timer ends a resume window if and only if that window is the one it was armed for: the
      session is parked now, under the generation the timer carries. */
  lemma TimerEndsItsOwnWindow(evs: seq<Event>, sid: nat, gen: nat)
    requires ValidRun(INIT, evs) && (sid, gen) in RunState(INIT, evs).timers
    ensures var s := RunState(INIT, evs);
            Expires(s, sid, gen) <==> sid in s.parked && sid in s.windows && s.windows[sid] == gen
  {
    RunKeeps(INIT, evs);
    var s := RunState(INIT, evs);
    if sid in s.parked { assert ParkedGood(s, sid); }
  }

  /** A timer that fires is gone, and only it. If it ends a window, that session is taken out of the resumable map and
      shut down; otherwise nothing else happens. */
  lemma FiringIsExact(s: State, sid: nat, gen: nat)
    requires (sid, gen) in s.timers
    ensures var s' := FireStep(s, sid, gen);
            && (forall t :: t in s'.timers <==> t in s.timers && t != (sid, gen))
            && (forall x :: x in s'.parked <==> x in s.parked && !(x == sid && Expires(s, sid, gen)))
            && s'.live == s.live && s'.conns == s.conns && s'.windows == s.windows && s'.store.Keys == s.store.Keys
            && (forall x :: x in s.store ==>
                  s'.store[x] == if x == sid && Expires(s, sid, gen)
                                 then s.store[x].(shutdowns := s.store[x].shutdowns + 1) else s.store[x])
  {
  }

  /** When a window opens, its generation is new: larger than that of every earlier window, and carried by
      no timer, pending or about to be armed. So older timers cannot end it. */
  lemma WindowsAreDistinct(evs: seq<Event>, c: nat)
    requires ValidRun(INIT, evs) && c in RunState(INIT, evs).conns && RunState(INIT, evs).conns[c].Parking?
    ensures var s := RunState(INIT, evs);
            var sid, gen := s.conns[c].sid, s.conns[c].gen;
            && (sid in s.windows ==> s.windows[sid] < gen)
            && (sid, gen) !in s.timers
            && (forall d :: d in s.conns ==> s.conns[d] != Arming(sid, gen))
  {
    RunKeeps(INIT, evs);
    var s := RunState(INIT, evs);
    assert ConnGood(s, c);
    forall d | d in s.conns ensures s.conns[d] != Arming(s.conns[c].sid, s.conns[c].gen) {
      assert ConnGood(s, d);
    }
  }

  /** The defensive branches of `handle_session_close` are dead: a closing handler still owns the channel,
      its session is still listed until it unlists it, and no parked session shares its id. */
  lemma DefensiveBranchesAreDead(evs: seq<Event>, c: nat)
    requires ValidRun(INIT, evs) && c in RunState(INIT, evs).conns
    ensures var s := RunState(INIT, evs);
            var p := s.conns[c];
            && p.sid in s.store
            && (p.Pausing? ==> s.store[p.sid].sender == c)
            && (p.Unlisting? ==> p.sid in s.live && s.store[p.sid].sender == c)
            && (p.Evicting? ==> p.sid !in s.parked)
            && (p.Dropping? ==> p.sid in s.live)
  {
    RunKeeps(INIT, evs);
    assert ConnGood(RunState(INIT, evs), c);
  }

  // ---------------------------------------------------------------- the handler code

  /** The shared server state. The two functions of the source are its methods, here run without
      interference; the steps above are what other handlers may get in between. */
  class AppState {
    var store: map<nat, Session>
    var live: set<nat>
    var parked: set<nat>
    var conns: map<nat, Phase>
    var timers: set<(nat, nat)>
    var windows: map<nat, nat>

    ghost function View(): State
      reads this
    {
      State(store, live, parked, conns, timers, windows)
    }

    constructor ()
      ensures View() == INIT
    {
      store, live, parked, conns, timers, windows := map[], {}, {}, map[], {}, map[];
    }

    method SetOf(sid: nat, x: Session)
      modifies this`store
      ensures View() == SetSession(old(View()), sid, x)
    {
      store := store[sid := x];
    }

    method Retire(sid: nat)
      requires sid in store
      modifies this`store
      ensures View() == Shutdown(old(View()), sid)
    {
      store := store[sid := store[sid].(shutdowns := store[sid].shutdowns + 1)];
    }

    /** The next step of handler `c`. */
    method AdvanceOnce(c: nat)
      requires c in conns && conns[c].sid in store
      modifies this
      ensures View() == AdvanceStep(old(View()), c)
      ensures Confined(old(View()), View(), c, old(conns)[c].sid)
    {
      AdvanceIsConfined(View(), c);
      var sid := conns[c].sid;
      var x := store[sid];
      match conns[c]
      case Claimed(_) =>
        SetOf(sid, x.(generation := x.generation + 1));
        conns := conns[c := Bumped(sid)];
      case Bumped(_) =>
        SetOf(sid, x.(sender := c, paused := false));
        conns := conns[c := Attached(sid)];
      case Attached(_) =>
        live := live + {sid};
        conns := conns[c := Open(sid)];
      case Pausing(_) =>
        if x.sender != c {
          conns := conns[c := Gone(sid)];
          return;
        }
        SetOf(sid, x.(paused := true));
        conns := conns[c := Unlisting(sid)];
      case Unlisting(_) =>
        if sid in live && x.sender == c {
          live := live - {sid};
        }
        conns := conns[c := Evicting(sid)];
      case Evicting(_) =>
        if sid in parked {
          parked := parked - {sid};
          Retire(sid);
        }
        conns := conns[c := Bumping(sid)];
      case Bumping(_) =>
        SetOf(sid, x.(generation := x.generation + 1));
        conns := conns[c := Parking(sid, x.generation + 1)];
      case Parking(_, g) =>
        parked := parked + {sid};
        windows := windows[sid := g];
        conns := conns[c := Arming(sid, g)];
      case Arming(_, g) =>
        timers := timers + {(sid, g)};
        conns := conns[c := Gone(sid)];
      case Dropping(_) =>
        if sid in live {
          live := live - {sid};
          Retire(sid);
        }
        conns := conns[c := Gone(sid)];
      case _ =>
    }

    method ConnectOnce(c: nat, wanted: Option<nat>, newId: nat)
      modifies this
      ensures View() == ConnectStep(old(View()), c, wanted, newId)
    {
      if wanted.Some? && wanted.value in parked {
        parked := parked - {wanted.value};
        conns := conns[c := Claimed(wanted.value)];
      } else {
        store := store[newId := Session(c, false, 0, false, 0)];
        live := live + {newId};
        conns := conns[c := Open(newId)];
      }
    }

    method FireTimer(sid: nat, gen: nat)
      modifies this
      ensures View() == FireStep(old(View()), sid, gen)
    {
      timers := timers - {(sid, gen)};
      if sid in parked && sid in store && store[sid].generation == gen && store[sid].paused {
        parked := parked - {sid};
        Retire(sid);
      }
    }

    /** `resolve_session`: the new connection ends up as the owner of a listed session. */
    method ResolveSession(c: nat, wanted: Option<nat>, newId: nat) returns (sid: nat, resumed: bool)
      requires Inv(View()) && c !in conns && newId !in store
      modifies this
      ensures Inv(View())
      ensures resumed <==> wanted.Some? && wanted.value in old(parked)
      ensures sid == if resumed then wanted.value else newId
      ensures c in conns && conns[c] == Open(sid) && sid in live && sid !in parked
      ensures sid in store && store[sid].sender == c && !store[sid].paused
      ensures resumed ==>
                sid in old(store) && store[sid] == old(store)[sid].(sender := c, paused := false,
                                                                    generation := old(store)[sid].generation + 1)
      ensures !resumed ==> store[sid].generation == 0 && !store[sid].resumable && store[sid].shutdowns == 0
      ensures OnlyTouches(old(View()), View(), c, sid)
    {
      ghost var s0 := View();
      resumed := wanted.Some? && wanted.value in parked;
      sid := if resumed then wanted.value else newId;
      if resumed { assert ParkedGood(s0, sid); }
      ConnectKeeps(s0, c, wanted, newId);
      ConnectOnce(c, wanted, newId);
      ghost var s1 := View();
      ConnectIsConfined(s0, c, wanted, newId);
      if resumed {
        Reattach(c);
        ConfinedTwice(s0, s1, View(), c, sid);
      }
      assert ConnGood(View(), c);
      assert Look(0);
    }

    /** The new connection takes over a session it has claimed. */
    method Reattach(c: nat)
      requires Inv(View()) && c in conns && conns[c].Claimed?
      modifies this
      ensures Inv(View())
      ensures var sid := old(conns)[c].sid;
              && c in conns && conns[c] == Open(sid) && sid in old(store) && sid in store
              && store[sid] == old(store)[sid].(sender := c, paused := false,
                                                generation := old(store)[sid].generation + 1)
      ensures Confined(old(View()), View(), c, old(conns)[c].sid)
    {
      ghost var s0, sid := View(), conns[c].sid;
      BumpAndAttach(c);
      ghost var s1 := View();
      Relist(c);
      ConfinedTwice(s0, s1, View(), c, sid);
    }

    method BumpAndAttach(c: nat)
      requires Inv(View()) && c in conns && conns[c].Claimed?
      modifies this
      ensures Inv(View())
      ensures var sid := old(conns)[c].sid;
              && c in conns && conns[c] == Attached(sid) && sid in old(store) && sid in store
              && store[sid] == old(store)[sid].(sender := c, paused := false,
                                                generation := old(store)[sid].generation + 1)
      ensures Confined(old(View()), View(), c, old(conns)[c].sid)
    {
      ghost var s0, sid := View(), conns[c].sid;
      assert ConnGood(View(), c);
      ResumeKeeps(View(), c);
      AdvanceOnce(c);
      ghost var s1 := View();
      ResumeKeeps(View(), c);
      AdvanceOnce(c);
      ConfinedTwice(s0, s1, View(), c, sid);
    }

    method Relist(c: nat)
      requires Inv(View()) && c in conns && conns[c].Attached?
      modifies this
      ensures Inv(View()) && store == old(store)
      ensures c in conns && conns[c] == Open(old(conns)[c].sid)
      ensures Confined(old(View()), View(), c, old(conns)[c].sid)
    {
      assert ConnGood(View(), c);
      ResumeKeeps(View(), c);
      AdvanceOnce(c);
    }

    /** `handle_session_close`: a resumable session is parked under a new generation with a timer armed for
        it, any other one is shut down. */
    method HandleSessionClose(c: nat)
      requires Inv(View()) && c in conns && conns[c].Open?
      modifies this
      ensures Inv(View())
      ensures var sid := old(conns)[c].sid;
              && sid in old(store) && sid in store && sid !in live
              && var x := old(store)[sid];
                 if x.resumable then
                   && sid in parked && (sid, x.generation + 1) in timers
                   && store[sid] == x.(paused := true, generation := x.generation + 1)
                 else
                   && sid !in parked && timers == old(timers) && store[sid] == x.(shutdowns := 1)
      ensures OnlyTouches(old(View()), View(), c, old(conns)[c].sid)
    {
      assert ConnGood(View(), c);
      if store[conns[c].sid].resumable { CloseResumable(c); } else { CloseForGood(c); }
      assert Look(0);
    }

    /** Decide how the session is going to be closed. */
    method BeginClose(c: nat)
      requires Inv(View()) && c in conns && conns[c].Open?
      modifies this`conns
      ensures Inv(View())
      ensures var sid := old(conns)[c].sid;
              sid in store && conns == old(conns)[c := if store[sid].resumable then Pausing(sid) else Dropping(sid)]
      ensures Confined(old(View()), View(), c, old(conns)[c].sid)
    {
      ghost var s0 := View();
      assert ConnGood(s0, c);
      CloseBeginsKeeps(s0, c);
      CloseIsConfined(s0, c);
      var sid := conns[c].sid;
      conns := conns[c := if store[sid].resumable then Pausing(sid) else Dropping(sid)];
    }

    /** Take the session off the live map and shut it down. */
    method CloseForGood(c: nat)
      requires Inv(View()) && c in conns && conns[c].Open?
      requires conns[c].sid in store && !store[conns[c].sid].resumable
      modifies this
      ensures Inv(View()) && timers == old(timers)
      ensures var sid := old(conns)[c].sid;
              && sid in old(store) && sid in store && sid !in live && sid !in parked
              && store[sid] == old(store)[sid].(shutdowns := 1)
      ensures Confined(old(View()), View(), c, old(conns)[c].sid)
    {
      ghost var s0, sid := View(), conns[c].sid;
      BeginClose(c);
      ghost var s1 := View();
      Drop(c);
      ConfinedTwice(s0, s1, View(), c, sid);
    }

    method Drop(c: nat)
      requires Inv(View()) && c in conns && conns[c].Dropping?
      modifies this
      ensures Inv(View()) && timers == old(timers)
      ensures var sid := old(conns)[c].sid;
              && sid in old(store) && sid in store && sid !in live && sid !in parked
              && store[sid] == old(store)[sid].(shutdowns := 1)
      ensures Confined(old(View()), View(), c, old(conns)[c].sid)
    {
      assert ConnGood(View(), c);
      CloseKeeps(View(), c);
      AdvanceOnce(c);
    }

    /** Pause the session, take it off the live map, evict a leftover of the same id (there is none). */
    method PauseAndUnlist(c: nat)
      requires Inv(View()) && c in conns && conns[c].Pausing?
      modifies this
      ensures Inv(View()) && timers == old(timers)
      ensures var sid := old(conns)[c].sid;
              && c in conns && conns[c] == Bumping(sid)
              && sid in old(store) && sid in store && sid !in live && sid !in parked
              && store[sid] == old(store)[sid].(paused := true)
      ensures Confined(old(View()), View(), c, old(conns)[c].sid)
    {
      ghost var s0, sid := View(), conns[c].sid;
      assert ConnGood(View(), c);
      CloseKeeps(View(), c);
      AdvanceOnce(c);
      ghost var s1 := View();
      assert ConnGood(View(), c);
      CloseKeeps(View(), c);
      AdvanceOnce(c);
      ConfinedTwice(s0, s1, View(), c, sid);
      ghost var s2 := View();
      assert ConnGood(View(), c);
      CloseKeeps(View(), c);
      AdvanceOnce(c);
      ConfinedTwice(s0, s2, View(), c, sid);
    }

    method Suspend(c: nat)
      requires Inv(View()) && c in conns && conns[c].Open?
      requires conns[c].sid in store && store[conns[c].sid].resumable
      modifies this
      ensures Inv(View())
      ensures var sid := old(conns)[c].sid;
              && c in conns && conns[c] == Bumping(sid)
              && sid in store && sid !in live && store[sid] == old(store)[sid].(paused := true)
      ensures Confined(old(View()), View(), c, old(conns)[c].sid)
    {
      ghost var s0, sid := View(), conns[c].sid;
      BeginClose(c);
      ghost var s1 := View();
      PauseAndUnlist(c);
      ConfinedTwice(s0, s1, View(), c, sid);
    }

    /** Move the session to the parked ones, under a new generation. */
    method Park(c: nat)
      requires Inv(View()) && c in conns && conns[c].Bumping?
      modifies this
      ensures Inv(View()) && live == old(live)
      ensures var sid := old(conns)[c].sid;
              && sid in old(store) && sid in store && sid in parked
              && store[sid] == old(store)[sid].(generation := old(store)[sid].generation + 1)
              && c in conns && conns[c] == Arming(sid, store[sid].generation)
      ensures Confined(old(View()), View(), c, old(conns)[c].sid)
    {
      ghost var s0, sid := View(), conns[c].sid;
      assert ConnGood(View(), c);
      ParkKeeps(View(), c);
      AdvanceOnce(c);
      ghost var s1 := View();
      ParkKeeps(View(), c);
      AdvanceOnce(c);
      ConfinedTwice(s0, s1, View(), c, sid);
    }

    method Arm(c: nat)
      requires Inv(View()) && c in conns && conns[c].Arming?
      modifies this
      ensures Inv(View()) && live == old(live) && store == old(store) && parked == old(parked)
      ensures (old(conns)[c].sid, old(conns)[c].gen) in timers
      ensures Confined(old(View()), View(), c, old(conns)[c].sid)
    {
      assert ConnGood(View(), c);
      ArmKeeps(View(), c);
      AdvanceOnce(c);
    }

    method OpenWindow(c: nat)
      requires Inv(View()) && c in conns && conns[c].Bumping?
      modifies this
      ensures Inv(View()) && live == old(live)
      ensures var sid := old(conns)[c].sid;
              && sid in old(store) && sid in store && sid in parked
              && var gen := old(store)[sid].generation + 1;
                 (sid, gen) in timers && store[sid] == old(store)[sid].(generation := gen)
      ensures Confined(old(View()), View(), c, old(conns)[c].sid)
    {
      ghost var s0, sid := View(), conns[c].sid;
      Park(c);
      ghost var s1 := View();
      Arm(c);
      ConfinedTwice(s0, s1, View(), c, sid);
    }

    method CloseResumable(c: nat)
      requires Inv(View()) && c in conns && conns[c].Open?
      requires conns[c].sid in store && store[conns[c].sid].resumable
      modifies this
      ensures Inv(View())
      ensures var sid := old(conns)[c].sid;
              && sid in old(store) && sid in store && sid !in live && sid in parked
              && var x := old(store)[sid];
                 && (sid, x.generation + 1) in timers
                 && store[sid] == x.(paused := true, generation := x.generation + 1)
      ensures Confined(old(View()), View(), c, old(conns)[c].sid)
    {
      ghost var s0, sid := View(), conns[c].sid;
      Suspend(c);
      ghost var s1 := View();
      OpenWindow(c);
      ConfinedTwice(s0, s1, View(), c, sid);
    }
  }
}
