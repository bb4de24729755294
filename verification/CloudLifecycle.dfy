/**
 The part of access/cloud/runtime.go that lifecycleMu guards, as values: each function below is
 one critical section. Session objects are identified by numbers; a session's `done` channel is
 closed when its object is finished.
 */
module CloudLifecycle {
  import opened Prelude

  type SessionId = string
  type Obj = nat
  type ConnectionId = string

  datatype Kind = Unspecified | Active | Blocked | Deleted

  /** A lifecycle record; `rest` stands for the fields that only matter for equality. */
  datatype StateRecord = StateRecord(daemonId: string, revision: nat, kind: Kind, rest: string)

  datatype Config = Config(daemonId: string, maxSessions: int)

  const DEFAULT_MAX_SESSIONS := 256

  function Limit(cfg: Config): nat {
    if cfg.maxSessions <= 0 then DEFAULT_MAX_SESSIONS else cfg.maxSessions
  }

  datatype Runtime = Runtime(
    daemon: Option<StateRecord>,
    ready: ConnectionId,
    ack: nat,
    sessions: map<SessionId, Obj>,
    closing: map<SessionId, Obj>,
    enrollmentDeleted: bool)

  const INITIAL_RUNTIME := Runtime(None, "", 0, map[], map[], false)

  /** validateDaemonState. */
  predicate ValidState(cfg: Config, state: StateRecord) {
    state.daemonId == cfg.daemonId && state.revision != 0 && !state.kind.Unspecified?
  }

  /** The checks of applyDaemonState against the state held. */
  predicate Accepts(rt: Runtime, state: StateRecord) {
    rt.daemon.Some? ==>
      var current := rt.daemon.value;
      && current.revision <= state.revision
      && (current.revision == state.revision && current.revision != 0 ==> current == state)
      && (current.kind.Deleted? ==> current == state)
  }

  /** The first critical section of applyDaemonState, once the state is accepted. */
  function Adopt(rt: Runtime, state: StateRecord): Runtime {
    rt.(daemon := Some(state),
        ack := if rt.daemon.None? || rt.daemon.value.revision != state.revision then 0 else rt.ack)
  }

  /** The sessions applyDaemonState cancels and waits for. */
  function Cancelled(rt: Runtime, state: StateRecord): set<Obj> {
    if state.kind.Active? then {} else rt.sessions.Values
  }

  /** cloudActiveLocked. */
  predicate CloudActive(rt: Runtime) {
    && rt.ready != "" && rt.daemon.Some? && rt.daemon.value.kind.Active?
    && rt.ack == rt.daemon.value.revision
  }

  datatype Admission = Admitted | NotActive | Duplicate | Full

  /** What beginCloudSession answers. */
  function Admit(cfg: Config, rt: Runtime, sid: SessionId): Admission {
    if !CloudActive(rt) then NotActive
    else if sid in rt.sessions || sid in rt.closing then Duplicate
    else if |rt.sessions| + |rt.closing| >= Limit(cfg) then Full
    else Admitted
  }

  function Begin(cfg: Config, rt: Runtime, sid: SessionId, obj: Obj): Runtime {
    if Admit(cfg, rt, sid).Admitted? then rt.(sessions := rt.sessions[sid := obj]) else rt
  }

  /** detachCloudSessions. */
  function Detach(rt: Runtime): Runtime {
    rt.(sessions := map[], closing := rt.closing + rt.sessions)
  }

  function RemoveExact(m: map<SessionId, Obj>, sid: SessionId, obj: Obj): map<SessionId, Obj> {
    if sid in m && m[sid] == obj then m - {sid} else m
  }

  /** The critical section of finishCloudSession. */
  function Finish(rt: Runtime, sid: SessionId, obj: Obj): Runtime {
    rt.(sessions := RemoveExact(rt.sessions, sid, obj), closing := RemoveExact(rt.closing, sid, obj))
  }

  function MarkReady(rt: Runtime, conn: ConnectionId): Runtime {
    rt.(ready := conn, ack := 0)
  }

  function ClearReady(rt: Runtime, conn: ConnectionId): Runtime {
    if rt.ready == conn then rt.(ready := "", ack := 0) else rt
  }

  predicate AckCounts(rt: Runtime, conn: ConnectionId, revision: nat) {
    rt.ready == conn && rt.daemon.Some? && rt.daemon.value.revision == revision
  }

  /** markLifecycleAcknowledged. */
  function MarkAck(rt: Runtime, conn: ConnectionId, revision: nat): Runtime {
    if AckCounts(rt, conn, revision) then rt.(ack := revision) else rt
  }
}
