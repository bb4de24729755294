/**
 Every interleaving of the Cloud runtime: serial connection attempts with their cleanup order,
 concurrent applications of lifecycle states, offers answered by workers of any attempt, session
 finalizers and acknowledgements that arrive late.
 */
module CloudRuns {
  import opened Prelude
  import opened CloudLifecycle

  /**
   Where the serial connection attempt stands. `acked` says whether an acknowledgement of this
   connection has counted since it became ready.
   */
  datatype Phase = Idle | Connecting(conn: ConnectionId) | Ready(conn: ConnectionId, acked: bool) | Cleaning

  /** An applyDaemonState call past its first critical section, waiting for cancelled sessions. */
  datatype Call = Call(state: StateRecord, waits: set<Obj>)

  /** `live` maps every begun and unfinished session object to its ID. */
  datatype System = System(
    rt: Runtime, phase: Phase, calls: map<nat, Call>,
    live: map<Obj, SessionId>, finished: set<Obj>, connections: set<ConnectionId>)

  const INITIAL := System(INITIAL_RUNTIME, Idle, map[], map[], {}, {})

  datatype Event =
    | StartAttempt(conn: ConnectionId)
    | BecomeReady
    | LeaveReady
    | FailEarly
    | CleanUp
    | CleanUpByDetach
    | ApplyStart(call: nat, state: StateRecord)
    | ApplyReturn(call: nat, storageOk: bool)
    | ApplyCancelled(call: nat)
    | BeginSession(sid: SessionId, obj: Obj)
    | FinishSession(obj: Obj)
    | Acknowledge(conn: ConnectionId, revision: nat)

  predicate Enabled(cfg: Config, s: System, e: Event) {
    match e
    case StartAttempt(conn) => s.phase.Idle? && conn != "" && conn !in s.connections
    case BecomeReady => s.phase.Connecting?
    case LeaveReady => s.phase.Ready?
    case FailEarly => s.phase.Connecting?
    case CleanUp => s.phase.Cleaning? && s.rt.sessions == map[]
    case CleanUpByDetach => s.phase.Cleaning?
    case ApplyStart(call, state) => call !in s.calls && ValidState(cfg, state) && Accepts(s.rt, state)
    case ApplyReturn(call, _) => call in s.calls && s.calls[call].waits <= s.finished
    case ApplyCancelled(call) => call in s.calls
    case BeginSession(sid, obj) => obj !in s.live && obj !in s.finished && Admit(cfg, s.rt, sid).Admitted?
    case FinishSession(obj) => obj in s.live
    case Acknowledge(conn, revision) => conn in s.connections
  }

  /** An ApplyReturn that reports success. */
  predicate Succeeds(s: System, e: Event)
    requires e.ApplyReturn? && e.call in s.calls
  {
    s.calls[e.call].state.kind.Deleted? ==> e.storageOk
  }

  function Step(cfg: Config, s: System, e: Event): System {
    if !Enabled(cfg, s, e) then s
    else match e
      case StartAttempt(conn) => s.(phase := Connecting(conn), connections := s.connections + {conn})
      case BecomeReady => s.(phase := Ready(s.phase.conn, false), rt := MarkReady(s.rt, s.phase.conn))
      case LeaveReady => s.(phase := Cleaning, rt := ClearReady(s.rt, s.phase.conn))
      case FailEarly => s.(phase := Cleaning)
      case CleanUp => s.(phase := Idle)
      case CleanUpByDetach => s.(phase := Idle, rt := Detach(s.rt))
      case ApplyStart(call, state) =>
        s.(rt := Adopt(s.rt, state), calls := s.calls[call := Call(state, Cancelled(s.rt, state))])
      case ApplyReturn(call, storageOk) =>
        s.(calls := s.calls - {call},
           rt := if s.calls[call].state.kind.Deleted? && storageOk then s.rt.(enrollmentDeleted := true) else s.rt)
      case ApplyCancelled(call) => s.(calls := s.calls - {call})
      case BeginSession(sid, obj) => s.(rt := Begin(cfg, s.rt, sid, obj), live := s.live[obj := sid])
      case FinishSession(obj) =>
        s.(rt := Finish(s.rt, s.live[obj], obj), live := s.live - {obj}, finished := s.finished + {obj})
      case Acknowledge(conn, revision) =>
        s.(rt := MarkAck(s.rt, conn, revision),
           phase := if s.phase.Ready? && AckCounts(s.rt, conn, revision) then Ready(s.phase.conn, true) else s.phase)
  }

  function Run(cfg: Config, events: seq<Event>): System {
    if events == [] then INITIAL else Step(cfg, Run(cfg, events[..|events| - 1]), events[|events| - 1])
  }

  // ---- The invariant ------------------------------------------------------------------------

  ghost predicate Holds(m: map<SessionId, Obj>, sid: SessionId, obj: Obj) {
    sid in m && m[sid] == obj
  }

  /** Unfinished sessions are exactly those in the two tables, each under its own ID, in one of them. */
  ghost predicate Accounted(cfg: Config, s: System) {
    && s.rt.sessions.Keys !! s.rt.closing.Keys
    && |s.rt.sessions| + |s.rt.closing| <= Limit(cfg)
    && Owned(s.rt.sessions, s.live) && Owned(s.rt.closing, s.live)
    && (forall obj :: obj in s.live ==> Holds(s.rt.sessions, s.live[obj], obj) || Holds(s.rt.closing, s.live[obj], obj))
    && s.live.Keys !! s.finished
  }

  /** Every session in the table is unfinished and tabled under its ID. */
  ghost predicate Owned(m: map<SessionId, Obj>, live: map<Obj, SessionId>) {
    forall sid :: sid in m ==> m[sid] in live && live[m[sid]] == sid
  }

  /** A counted acknowledgement is always of the revision held, by the connection that is ready. */
  ghost predicate AckFenced(s: System) {
    && "" !in s.connections
    && (s.rt.daemon.Some? ==> s.rt.daemon.value.revision != 0)
    && (s.rt.ack != 0 ==>
          s.rt.daemon.Some? && s.rt.ack == s.rt.daemon.value.revision && s.phase.Ready? && s.phase.acked)
  }

  ghost predicate PhaseOk(s: System) {
    match s.phase
    case Idle => s.rt.ready == "" && s.rt.sessions == map[]
    case Connecting(conn) => s.rt.ready == "" && s.rt.sessions == map[] && conn in s.connections
    case Ready(conn, acked) => s.rt.ready == conn && conn in s.connections && (!acked ==> s.rt.sessions == map[])
    case Cleaning => s.rt.ready == ""
  }

  /** What an application in progress knows about the state it installed. */
  ghost predicate CallOk(rt: Runtime, c: Call) {
    && rt.daemon.Some? && Later(c.state, rt.daemon.value)
    && (rt.daemon.value == c.state && !c.state.kind.Active? ==>
          forall sid :: sid in rt.sessions ==> rt.sessions[sid] in c.waits)
  }

  /** `b` may replace `a`: revisions do not go back, a revision names one record, DELETED stays. */
  ghost predicate Later(a: StateRecord, b: StateRecord) {
    && a.revision <= b.revision
    && (a.revision == b.revision ==> a == b)
    && (a.kind.Deleted? ==> a == b)
  }

  ghost predicate Inv(cfg: Config, s: System) {
    && Accounted(cfg, s) && AckFenced(s) && PhaseOk(s)
    && (forall call :: call in s.calls ==> CallOk(s.rt, s.calls[call]))
    && (s.rt.enrollmentDeleted ==> s.rt.daemon.Some? && s.rt.daemon.value.kind.Deleted?)
  }

  lemma AdoptedIsLater(cfg: Config, s: System, state: StateRecord)
    requires Inv(cfg, s) && Accepts(s.rt, state) && s.rt.daemon.Some?
    ensures Later(s.rt.daemon.value, state)
  {
  }

  lemma ApplyStartInv(cfg: Config, s: System, call: nat, state: StateRecord)
    requires Inv(cfg, s) && Enabled(cfg, s, ApplyStart(call, state))
    ensures Inv(cfg, Step(cfg, s, ApplyStart(call, state)))
  {
    var t := Step(cfg, s, ApplyStart(call, state));
    forall c | c in t.calls ensures CallOk(t.rt, t.calls[c]) {
      if c != call {
        assert CallOk(s.rt, s.calls[c]);
        AdoptedIsLater(cfg, s, state);
      }
    }
  }

  lemma BeginInv(cfg: Config, s: System, sid: SessionId, obj: Obj)
    requires Inv(cfg, s) && Enabled(cfg, s, BeginSession(sid, obj))
    ensures Inv(cfg, Step(cfg, s, BeginSession(sid, obj)))
  {
    var t := Step(cfg, s, BeginSession(sid, obj));
    forall c | c in t.calls ensures CallOk(t.rt, t.calls[c]) { assert CallOk(s.rt, s.calls[c]); }
  }

  lemma FinishInv(cfg: Config, s: System, obj: Obj)
    requires Inv(cfg, s) && Enabled(cfg, s, FinishSession(obj))
    ensures Inv(cfg, Step(cfg, s, FinishSession(obj)))
  {
    var t := Step(cfg, s, FinishSession(obj));
    FinishAccounted(cfg, s, obj);
    forall c | c in t.calls ensures CallOk(t.rt, t.calls[c]) { assert CallOk(s.rt, s.calls[c]); }
  }

  lemma FinishAccounted(cfg: Config, s: System, obj: Obj)
    requires Accounted(cfg, s) && obj in s.live
    ensures Accounted(cfg, s.(rt := Finish(s.rt, s.live[obj], obj), live := s.live - {obj},
                              finished := s.finished + {obj}))
  {
    var sid := s.live[obj];
    var t := s.(rt := Finish(s.rt, sid, obj), live := s.live - {obj}, finished := s.finished + {obj});
    RemoveSize(s.rt.sessions, sid, obj);
    RemoveSize(s.rt.closing, sid, obj);
    forall o | o in t.live ensures Holds(t.rt.sessions, t.live[o], o) || Holds(t.rt.closing, t.live[o], o) {
      assert Holds(s.rt.sessions, s.live[o], o) || Holds(s.rt.closing, s.live[o], o);
    }
  }

  lemma RemoveSize(m: map<SessionId, Obj>, sid: SessionId, obj: Obj)
    ensures |RemoveExact(m, sid, obj)| <= |m| && RemoveExact(m, sid, obj).Keys <= m.Keys
  {
    if sid in m { assert (m - {sid}).Keys == m.Keys - {sid}; }
  }

  lemma DetachInv(cfg: Config, s: System)
    requires Inv(cfg, s) && Enabled(cfg, s, CleanUpByDetach)
    ensures Inv(cfg, Step(cfg, s, CleanUpByDetach))
  {
    var t := Step(cfg, s, CleanUpByDetach);
    DetachAccounted(cfg, s);
    forall c | c in t.calls ensures CallOk(t.rt, t.calls[c]) { assert CallOk(s.rt, s.calls[c]); }
  }

  lemma DetachAccounted(cfg: Config, s: System)
    requires Accounted(cfg, s)
    ensures Accounted(cfg, s.(phase := Idle, rt := Detach(s.rt)))
  {
    var all := s.rt.closing + s.rt.sessions;
    DisjointUnionSize(s.rt.closing, s.rt.sessions);
    UnionOwned(s.rt.closing, s.rt.sessions, s.live);
    forall o | o in s.live ensures Holds(all, s.live[o], o) {
      assert Holds(s.rt.sessions, s.live[o], o) || Holds(s.rt.closing, s.live[o], o);
      UnionHolds(s.rt.closing, s.rt.sessions, s.live[o], o);
    }
  }

  lemma UnionOwned(a: map<SessionId, Obj>, b: map<SessionId, Obj>, live: map<Obj, SessionId>)
    requires Owned(a, live) && Owned(b, live)
    ensures Owned(a + b, live)
  {
  }

  lemma UnionHolds(a: map<SessionId, Obj>, b: map<SessionId, Obj>, sid: SessionId, obj: Obj)
    requires a.Keys !! b.Keys && (Holds(a, sid, obj) || Holds(b, sid, obj))
    ensures Holds(a + b, sid, obj)
  {
  }

  lemma DisjointUnionSize(a: map<SessionId, Obj>, b: map<SessionId, Obj>)
    requires a.Keys !! b.Keys
    ensures |a + b| == |a| + |b|
  {
    assert (a + b).Keys == a.Keys + b.Keys;
  }

  lemma CallsKept(cfg: Config, s: System, e: Event)
    requires Inv(cfg, s) && !e.ApplyStart? && !e.BeginSession?
    ensures var t := Step(cfg, s, e); forall c :: c in t.calls ==> CallOk(t.rt, t.calls[c])
  {
    var t := Step(cfg, s, e);
    forall c | c in t.calls ensures CallOk(t.rt, t.calls[c]) { assert CallOk(s.rt, s.calls[c]); }
  }

  lemma StepInv(cfg: Config, s: System, e: Event)
    requires Inv(cfg, s)
    ensures Inv(cfg, Step(cfg, s, e))
  {
    if Enabled(cfg, s, e) {
      match e
      case ApplyStart(call, state) => ApplyStartInv(cfg, s, call, state);
      case BeginSession(sid, obj) => BeginInv(cfg, s, sid, obj);
      case FinishSession(obj) => FinishInv(cfg, s, obj);
      case CleanUpByDetach => DetachInv(cfg, s);
      case ApplyReturn(call, _) =>
        assert CallOk(s.rt, s.calls[call]);
        CallsKept(cfg, s, e);
      case _ => CallsKept(cfg, s, e);
    }
  }

  lemma {:induction false} RunInv(cfg: Config, events: seq<Event>)
    ensures Inv(cfg, Run(cfg, events))
  {
    if events != [] {
      RunInv(cfg, events[..|events| - 1]);
      StepInv(cfg, Run(cfg, events[..|events| - 1]), events[|events| - 1]);
    }
  }

  // ---- Admission ----------------------------------------------------------------------------

  /**
   Position `j` of the run holds an acknowledgement that makes the final state active: the
   connection that is ready at the end became ready before it and stayed ready, and the revision
   held at the end was held from then on.
   */
  ghost predicate Witness(cfg: Config, events: seq<Event>, i: nat, j: nat) {
    var s := Run(cfg, events);
    && i < j < |events| && s.rt.daemon.Some?
    && events[i] == BecomeReady && Enabled(cfg, Run(cfg, events[..i]), BecomeReady)
    && events[j] == Acknowledge(s.rt.ready, s.rt.daemon.value.revision)
    && ReadyThroughout(cfg, events, i, s.rt.ready)
    && (forall k :: j <= k <= |events| ==> Run(cfg, events[..k]).rt.daemon == s.rt.daemon)
  }

  /** The connection that is ready became ready at some step and stayed ready since. */
  ghost predicate ReadySince(cfg: Config, events: seq<Event>, i: nat) {
    && i < |events| && events[i] == BecomeReady && Enabled(cfg, Run(cfg, events[..i]), BecomeReady)
    && ReadyThroughout(cfg, events, i, Run(cfg, events).rt.ready)
  }

  lemma ReadyStep(cfg: Config, s: System, e: Event)
    requires Inv(cfg, s) && Step(cfg, s, e).rt.ready != "" && !(e.BecomeReady? && Enabled(cfg, s, e))
    ensures Step(cfg, s, e).rt.ready == s.rt.ready
  {
  }

  lemma ActiveStep(cfg: Config, s: System, e: Event)
    requires Inv(cfg, s) && CloudActive(Step(cfg, s, e).rt)
    requires !(e.Acknowledge? && AckCounts(s.rt, e.conn, e.revision))
    ensures CloudActive(s.rt) && Step(cfg, s, e).rt.ready == s.rt.ready && Step(cfg, s, e).rt.daemon == s.rt.daemon
  {
    StepInv(cfg, s, e);
  }

  ghost predicate ReadyThroughout(cfg: Config, events: seq<Event>, i: nat, conn: ConnectionId) {
    forall k :: i < k <= |events| ==> Run(cfg, events[..k]).rt.ready == conn
  }

  lemma ReadyOneMore(cfg: Config, events: seq<Event>, i: nat, conn: ConnectionId)
    requires events != [] && ReadyThroughout(cfg, events[..|events| - 1], i, conn) && Run(cfg, events).rt.ready == conn
    ensures ReadyThroughout(cfg, events, i, conn)
  {
    var front := events[..|events| - 1];
    assert events[..|events|] == events;
    forall k | i < k <= |events| ensures Run(cfg, events[..k]).rt.ready == conn {
      if k < |events| { assert events[..k] == front[..k]; }
    }
  }

  lemma ReadyFromFront(cfg: Config, events: seq<Event>, i: nat)
    requires events != [] && ReadySince(cfg, events[..|events| - 1], i)
    requires Run(cfg, events).rt.ready == Run(cfg, events[..|events| - 1]).rt.ready
    ensures ReadySince(cfg, events, i)
  {
    assert events[..|events| - 1][..i] == events[..i];
    ReadyOneMore(cfg, events, i, Run(cfg, events).rt.ready);
  }

  lemma {:induction false} ReadyHasBegun(cfg: Config, events: seq<Event>) returns (i: nat)
    requires Run(cfg, events).rt.ready != ""
    ensures ReadySince(cfg, events, i)
  {
    var front := events[..|events| - 1];
    var e := events[|events| - 1];
    RunInv(cfg, front);
    if e.BecomeReady? && Enabled(cfg, Run(cfg, front), e) {
      i := |events| - 1;
      assert events[..|events|] == events;
    } else {
      ReadyStep(cfg, Run(cfg, front), e);
      i := ReadyHasBegun(cfg, front);
      ReadyFromFront(cfg, events, i);
    }
  }

  /**
   Admission only ever happens on an acknowledgement by the current connection, after it became
   ready, of exactly the revision now held. Late acknowledgements, of another connection or of
   another revision, can therefore not enable it.
   */
  lemma {:induction false} ActiveWasAcknowledged(cfg: Config, events: seq<Event>) returns (i: nat, j: nat)
    requires CloudActive(Run(cfg, events).rt)
    ensures Witness(cfg, events, i, j)
  {
    var front := events[..|events| - 1];
    var e := events[|events| - 1];
    var s := Run(cfg, front);
    RunInv(cfg, front);
    if e.Acknowledge? && AckCounts(s.rt, e.conn, e.revision) {
      i := ReadyHasBegun(cfg, events);
      j := |events| - 1;
      AcknowledgedLast(cfg, events, i);
    } else {
      ActiveStep(cfg, s, e);
      i, j := ActiveWasAcknowledged(cfg, front);
      ReadyFromFront(cfg, events, i);
      WitnessFromFront(cfg, events, i, j);
    }
  }

  lemma AcknowledgedLast(cfg: Config, events: seq<Event>, i: nat)
    requires events != [] && ReadySince(cfg, events, i)
    requires var e := events[|events| - 1]; var s := Run(cfg, events[..|events| - 1]);
             e.Acknowledge? && AckCounts(s.rt, e.conn, e.revision)
    ensures Witness(cfg, events, i, |events| - 1)
  {
    assert events[..|events|] == events;
    assert i < |events| - 1;
  }

  lemma WitnessFromFront(cfg: Config, events: seq<Event>, i: nat, j: nat)
    requires events != [] && Witness(cfg, events[..|events| - 1], i, j) && ReadySince(cfg, events, i)
    requires var s := Run(cfg, events[..|events| - 1]); var t := Run(cfg, events);
             t.rt.ready == s.rt.ready && t.rt.daemon == s.rt.daemon
    ensures Witness(cfg, events, i, j)
  {
    var front := events[..|events| - 1];
    assert front[j] == events[j] && events[..|events|] == events;
    forall k | j <= k <= |events| ensures Run(cfg, events[..k]).rt.daemon == Run(cfg, events).rt.daemon {
      if k < |events| { assert events[..k] == front[..k]; }
    }
  }

  lemma ActiveStays(cfg: Config, s: System, e: Event)
    requires Inv(cfg, s) && CloudActive(s.rt)
    requires var t := Step(cfg, s, e); t.rt.ready == s.rt.ready && t.rt.daemon == s.rt.daemon
    ensures CloudActive(Step(cfg, s, e).rt)
  {
  }

  lemma AckActivates(cfg: Config, s: System, conn: ConnectionId, revision: nat)
    requires Inv(cfg, s) && s.rt.daemon.Some? && s.rt.daemon.value.kind.Active? && s.rt.ready != ""
    requires conn == s.rt.ready && revision == s.rt.daemon.value.revision
    ensures CloudActive(Step(cfg, s, Acknowledge(conn, revision)).rt)
  {
  }

  lemma ReadyHere(cfg: Config, events: seq<Event>, i: nat, j: nat)
    requires Witness(cfg, events, i, j)
    ensures Run(cfg, events).rt.ready != ""
  {
    var s := Run(cfg, events[..i]);
    RunInv(cfg, events[..i]);
    assert events[..i + 1][..i] == events[..i] && events[..i + 1][i] == BecomeReady;
    assert Run(cfg, events[..i + 1]) == Step(cfg, s, BecomeReady);
  }

  lemma {:induction false} WitnessActivates(cfg: Config, events: seq<Event>, i: nat, j: nat, k: nat)
    requires Witness(cfg, events, i, j) && Run(cfg, events).rt.daemon.value.kind.Active? && j < k <= |events|
    ensures CloudActive(Run(cfg, events[..k]).rt)
    decreases k
  {
    var s := Run(cfg, events[..k - 1]);
    assert events[..k][..k - 1] == events[..k - 1] && Run(cfg, events[..k]) == Step(cfg, s, events[k - 1]);
    RunInv(cfg, events[..k - 1]);
    if k == j + 1 {
      ReadyHere(cfg, events, i, j);
      AckActivates(cfg, s, events[j].conn, events[j].revision);
    } else {
      WitnessActivates(cfg, events, i, j, k - 1);
      ActiveStays(cfg, s, events[k - 1]);
    }
  }

  /** Sessions are admitted exactly while an ACTIVE revision is held that the ready connection has acknowledged. */
  lemma ActiveIffAcknowledged(cfg: Config, events: seq<Event>)
    ensures var rt := Run(cfg, events).rt;
            CloudActive(rt)
            <==> rt.daemon.Some? && rt.daemon.value.kind.Active? && exists i: nat, j: nat :: Witness(cfg, events, i, j)
  {
    var rt := Run(cfg, events).rt;
    if CloudActive(rt) {
      var i, j := ActiveWasAcknowledged(cfg, events);
    }
    if rt.daemon.Some? && rt.daemon.value.kind.Active? && exists i: nat, j: nat :: Witness(cfg, events, i, j) {
      var i: nat, j: nat :| Witness(cfg, events, i, j);
      assert events[..|events|] == events;
      WitnessActivates(cfg, events, i, j, |events|);
    }
  }

  /** An acknowledgement of another connection or another revision can be left out of any run. */
  lemma {:induction false} LateAckIsInert(cfg: Config, before: seq<Event>, conn: ConnectionId, revision: nat,
                                          after: seq<Event>)
    requires var rt := Run(cfg, before).rt; rt.ready != conn || rt.daemon.None? || rt.daemon.value.revision != revision
    ensures Run(cfg, before + [Acknowledge(conn, revision)] + after) == Run(cfg, before + after)
  {
    var late := before + [Acknowledge(conn, revision)];
    if after == [] {
      assert late + after == late && late[..|late| - 1] == before && before + after == before;
    } else {
      var front := after[..|after| - 1];
      LateAckIsInert(cfg, before, conn, revision, front);
      assert (late + after)[..|late + after| - 1] == late + front;
      assert (before + after)[..|before + after| - 1] == before + front;
    }
  }

  // ---- Sessions -----------------------------------------------------------------------------

  /** The tables hold exactly the unfinished sessions, disjointly and within the limit. */
  lemma UnfinishedAreTabled(cfg: Config, events: seq<Event>, obj: Obj)
    ensures var s := Run(cfg, events);
            && s.rt.sessions.Keys !! s.rt.closing.Keys && |s.rt.sessions| + |s.rt.closing| <= Limit(cfg)
            && (obj in s.live <==> obj in s.rt.sessions.Values || obj in s.rt.closing.Values)
  {
    RunInv(cfg, events);
    var s := Run(cfg, events);
    if obj in s.live { assert Holds(s.rt.sessions, s.live[obj], obj) || Holds(s.rt.closing, s.live[obj], obj); }
  }

  /** A session ID is admitted again only when every earlier session under it has finished. */
  lemma ReadmittedAfterFinish(cfg: Config, events: seq<Event>, sid: SessionId, obj: Obj)
    requires Admit(cfg, Run(cfg, events).rt, sid).Admitted?
    ensures obj in Run(cfg, events).live ==> Run(cfg, events).live[obj] != sid
  {
    RunInv(cfg, events);
    var s := Run(cfg, events);
    if obj in s.live { assert Holds(s.rt.sessions, s.live[obj], obj) || Holds(s.rt.closing, s.live[obj], obj); }
  }

  lemma {:induction false} InjectiveSize(m: map<SessionId, Obj>)
    requires forall a, b :: a in m && b in m && m[a] == m[b] ==> a == b
    ensures |m.Values| == |m|
  {
    if m != map[] {
      var sid :| sid in m;
      var rest := m - {sid};
      InjectiveSize(rest);
      assert rest.Keys == m.Keys - {sid};
      ValuesWithout(m, sid);
    }
  }

  lemma ValuesWithout(m: map<SessionId, Obj>, sid: SessionId)
    requires sid in m && forall a, b :: a in m && b in m && m[a] == m[b] ==> a == b
    ensures (m - {sid}).Values == m.Values - {m[sid]}
  {
    var rest := m - {sid};
    forall obj | obj in m.Values && obj != m[sid] ensures obj in rest.Values {
      var a :| a in m && m[a] == obj;
      assert rest[a] == obj;
    }
  }

  lemma LiveSize(cfg: Config, s: System)
    requires Accounted(cfg, s)
    ensures |s.live| == |s.rt.sessions| + |s.rt.closing|
  {
    var all := s.rt.sessions + s.rt.closing;
    DisjointUnionSize(s.rt.sessions, s.rt.closing);
    UnionOwned(s.rt.sessions, s.rt.closing, s.live);
    InjectiveSize(all);
    forall obj | obj in s.live ensures obj in all.Values {
      UnionHolds(s.rt.sessions, s.rt.closing, s.live[obj], obj);
    }
    assert s.live.Keys == all.Values;
  }

  /** Whether an unfinished session has this ID. */
  ghost predicate InUse(s: System, sid: SessionId) {
    exists obj :: obj in s.live && s.live[obj] == sid
  }

  lemma InUseIsTabled(cfg: Config, s: System, sid: SessionId)
    requires Accounted(cfg, s)
    ensures InUse(s, sid) <==> sid in s.rt.sessions || sid in s.rt.closing
  {
    if InUse(s, sid) {
      var obj :| obj in s.live && s.live[obj] == sid;
      assert Holds(s.rt.sessions, sid, obj) || Holds(s.rt.closing, sid, obj);
    }
    if sid in s.rt.sessions { assert s.rt.sessions[sid] in s.live; }
    if sid in s.rt.closing { assert s.rt.closing[sid] in s.live; }
  }

  lemma Admits(cfg: Config, s: System, sid: SessionId)
    requires Accounted(cfg, s)
    ensures !InUse(s, sid) && |s.live| < (if cfg.maxSessions <= 0 then 256 else cfg.maxSessions)
            <==> sid !in s.rt.sessions && sid !in s.rt.closing && |s.rt.sessions| + |s.rt.closing| < Limit(cfg)
  {
    LiveSize(cfg, s);
    InUseIsTabled(cfg, s, sid);
  }

  /**
   A session begins exactly if an ACTIVE revision is held that the ready connection has acknowledged, no unfinished
   session has its ID, and fewer sessions are unfinished than configured, by default 256.
   */
  lemma SessionBeginsIff(cfg: Config, events: seq<Event>, sid: SessionId, obj: Obj)
    requires var s := Run(cfg, events); obj !in s.live && obj !in s.finished
    ensures var s, t := Run(cfg, events), Run(cfg, events + [BeginSession(sid, obj)]);
            && (obj in t.live <==>
                  && s.rt.daemon.Some? && s.rt.daemon.value.kind.Active?
                  && (exists i: nat, j: nat :: Witness(cfg, events, i, j))
                  && !InUse(s, sid) && |s.live| < if cfg.maxSessions <= 0 then 256 else cfg.maxSessions)
            && (obj in t.live ==> t.live == s.live[obj := sid] && Holds(t.rt.sessions, sid, obj))
  {
    var s := Run(cfg, events);
    RunInv(cfg, events);
    RunSnoc(cfg, events, BeginSession(sid, obj));
    ActiveIffAcknowledged(cfg, events);
    Admits(cfg, s, sid);
  }

  /** Between attempts, and in the next one until it is ready and acknowledged, no session is open. */
  lemma NoSessionBetweenAttempts(cfg: Config, events: seq<Event>)
    ensures var s := Run(cfg, events);
            s.rt.sessions != map[] ==> s.phase.Cleaning? || (s.phase.Ready? && s.phase.acked)
  {
    RunInv(cfg, events);
  }

  // ---- Lifecycle revisions ------------------------------------------------------------------

  ghost predicate LaterState(a: Option<StateRecord>, b: Option<StateRecord>) {
    a.Some? ==> b.Some? && Later(a.value, b.value)
  }

  lemma StepAdvances(cfg: Config, s: System, e: Event)
    requires Inv(cfg, s)
    ensures LaterState(s.rt.daemon, Step(cfg, s, e).rt.daemon)
    ensures s.rt.enrollmentDeleted ==> Step(cfg, s, e).rt.enrollmentDeleted
  {
    if e.ApplyStart? && Enabled(cfg, s, e) && s.rt.daemon.Some? { AdoptedIsLater(cfg, s, e.state); }
  }

  /**
   Over any stretch of a run, revisions never decrease, a revision names one record, DELETED is
   final, and once the enrollment is deleted the state is DELETED and stays so.
   */
  lemma {:induction false} RevisionsOnlyAdvance(cfg: Config, before: seq<Event>, after: seq<Event>)
    ensures LaterState(Run(cfg, before).rt.daemon, Run(cfg, before + after).rt.daemon)
    ensures Run(cfg, before).rt.enrollmentDeleted ==>
            && Run(cfg, before + after).rt.enrollmentDeleted
            && Run(cfg, before).rt.daemon.Some? && Run(cfg, before).rt.daemon.value.kind.Deleted?
            && Run(cfg, before + after).rt.daemon == Run(cfg, before).rt.daemon
  {
    if after == [] {
      RunInv(cfg, before);
      assert before + after == before;
    } else {
      var shorter, last := after[..|after| - 1], after[|after| - 1];
      RevisionsOnlyAdvance(cfg, before, shorter);
      RunInv(cfg, before + shorter);
      StepAdvances(cfg, Run(cfg, before + shorter), last);
      RunSnoc(cfg, before + shorter, last);
      assert before + after == before + shorter + [last];
      LaterChain(Run(cfg, before).rt, Run(cfg, before + shorter).rt, Run(cfg, before + after).rt);
    }
  }

  lemma RunSnoc(cfg: Config, events: seq<Event>, e: Event)
    ensures Run(cfg, events + [e]) == Step(cfg, Run(cfg, events), e)
  {
    assert (events + [e])[..|events|] == events;
  }

  lemma LaterChain(a: Runtime, b: Runtime, c: Runtime)
    requires LaterState(a.daemon, b.daemon) && LaterState(b.daemon, c.daemon)
    ensures LaterState(a.daemon, c.daemon)
    ensures a.daemon.Some? && a.daemon.value.kind.Deleted? ==> c.daemon == a.daemon
  {
  }

  /**
   A valid state is the one held after its application exactly if none was held, or this one, or an older one that
   is not DELETED; otherwise the application changes nothing.
   */
  lemma StateIsTakenIff(cfg: Config, events: seq<Event>, call: nat, state: StateRecord)
    requires call !in Run(cfg, events).calls && ValidState(cfg, state)
    ensures var s, t := Run(cfg, events), Run(cfg, events + [ApplyStart(call, state)]);
            var taken := s.rt.daemon.None? || s.rt.daemon.value == state
                         || (s.rt.daemon.value.revision < state.revision && !s.rt.daemon.value.kind.Deleted?);
            && (t.rt.daemon == Some(state) <==> taken) && (call in t.calls <==> taken) && (!taken ==> t == s)
            && (taken ==> t.calls[call].waits == if state.kind.Active? then {} else s.rt.sessions.Values)
  {
    RunSnoc(cfg, events, ApplyStart(call, state));
  }

  lemma RunOf3(cfg: Config, events: seq<Event>, e1: Event, e2: Event, e3: Event)
    ensures Run(cfg, events + [e1] + [e2] + [e3]) == Step(cfg, Step(cfg, Step(cfg, Run(cfg, events), e1), e2), e3)
  {
    RunSnoc(cfg, events, e1);
    RunSnoc(cfg, events + [e1], e2);
    RunSnoc(cfg, events + [e1] + [e2], e3);
  }

  lemma FencesOpen(cfg: Config, s: System, call: nat, state: StateRecord)
    requires Inv(cfg, s) && s.phase.Connecting? && state.kind.Active?
    requires Enabled(cfg, s, ApplyStart(call, state))
    ensures var ready := Step(cfg, Step(cfg, s, ApplyStart(call, state)), BecomeReady);
            var t := Step(cfg, ready, Acknowledge(s.phase.conn, state.revision));
            && CloudActive(t.rt) && t.live == s.live && t.finished == s.finished
            && t.rt.sessions == s.rt.sessions && t.rt.closing == s.rt.closing
  {
  }

  /** A connection that becomes ready and acknowledges an ACTIVE state makes room for sessions. */
  lemma AdmissionIsReached(cfg: Config, events: seq<Event>, call: nat, state: StateRecord, sid: SessionId, obj: Obj)
    requires var s := Run(cfg, events);
             && s.phase.Connecting? && call !in s.calls && ValidState(cfg, state) && state.kind.Active?
             && (s.rt.daemon.Some? ==>
                   || s.rt.daemon.value == state
                   || (s.rt.daemon.value.revision < state.revision && !s.rt.daemon.value.kind.Deleted?))
             && obj !in s.live && obj !in s.finished && !InUse(s, sid)
             && |s.live| < if cfg.maxSessions <= 0 then 256 else cfg.maxSessions
    ensures var conn := Run(cfg, events).phase.conn;
            var after := events + [ApplyStart(call, state)] + [BecomeReady] + [Acknowledge(conn, state.revision)];
            var t := Run(cfg, after + [BeginSession(sid, obj)]); obj in t.live && t.live[obj] == sid
  {
    var s := Run(cfg, events);
    var e1, e3 := ApplyStart(call, state), Acknowledge(s.phase.conn, state.revision);
    RunOf3(cfg, events, e1, BecomeReady, e3);
    RunSnoc(cfg, events + [e1] + [BecomeReady] + [e3], BeginSession(sid, obj));
    RunInv(cfg, events);
    FencesOpen(cfg, s, call, state);
    Admits(cfg, s, sid);
  }

  /** When applying a non-ACTIVE state succeeds and no newer state has come in, no session is open. */
  lemma AppliedMeansNoSession(cfg: Config, events: seq<Event>, call: nat, storageOk: bool)
    requires var s := Run(cfg, events);
             && Enabled(cfg, s, ApplyReturn(call, storageOk)) && Succeeds(s, ApplyReturn(call, storageOk))
             && !s.calls[call].state.kind.Active? && s.rt.daemon == Some(s.calls[call].state)
    ensures Run(cfg, events).rt.sessions == map[]
  {
    RunInv(cfg, events);
    var s := Run(cfg, events);
    assert CallOk(s.rt, s.calls[call]);
    forall sid ensures sid !in s.rt.sessions { OpenIsUnfinished(cfg, s, sid); }
  }

  /** The event is the successful end of applying DELETED. */
  ghost predicate DeletesAt(cfg: Config, events: seq<Event>, k: nat) {
    && k < |events| && events[k].ApplyReturn? && events[k].storageOk && Enabled(cfg, Run(cfg, events[..k]), events[k])
    && Run(cfg, events[..k]).calls[events[k].call].state.kind.Deleted?
  }

  /** The enrollment is deleted exactly when an application of DELETED has ended successfully. */
  lemma {:induction false} EnrollmentDeletedIff(cfg: Config, events: seq<Event>)
    ensures Run(cfg, events).rt.enrollmentDeleted <==> exists k: nat :: DeletesAt(cfg, events, k)
  {
    if events != [] {
      var front := events[..|events| - 1];
      EnrollmentDeletedIff(cfg, front);
      forall k: nat | k < |front| ensures DeletesAt(cfg, events, k) <==> DeletesAt(cfg, front, k) {
        assert front[..k] == events[..k] && front[k] == events[k];
      }
      if Run(cfg, front).rt.enrollmentDeleted {
        var k: nat :| DeletesAt(cfg, front, k);
        assert DeletesAt(cfg, events, k);
      }
      assert events[..|front|] == front;
      if Run(cfg, events).rt.enrollmentDeleted && !Run(cfg, front).rt.enrollmentDeleted {
        assert DeletesAt(cfg, events, |front|);
      }
    }
  }

  lemma OpenIsUnfinished(cfg: Config, s: System, sid: SessionId)
    requires Accounted(cfg, s)
    ensures sid in s.rt.sessions ==> s.rt.sessions[sid] !in s.finished
  {
  }
}
