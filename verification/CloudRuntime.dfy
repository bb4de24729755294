/** The lifecycle object of access/cloud/runtime.go; each method is what one hold of its mutex does. */
module CloudRuntime {
  import opened Prelude
  import opened CloudLifecycle

  datatype Refusal = Accepted | InvalidState | Stale | Conflict | Terminal

  class Lifecycle {
    const cfg: Config
    var daemonState: Option<StateRecord>
    var readyConnectionId: ConnectionId
    var lifecycleAck: nat
    var cloudSessions: map<SessionId, Obj>
    var cloudClosingSessions: map<SessionId, Obj>
    var enrollmentDeleted: bool

    ghost function View(): Runtime
      reads this
    {
      Runtime(daemonState, readyConnectionId, lifecycleAck, cloudSessions, cloudClosingSessions, enrollmentDeleted)
    }

    constructor (cfg: Config)
      ensures this.cfg == cfg && View() == INITIAL_RUNTIME
    {
      this.cfg := cfg;
      daemonState, readyConnectionId, lifecycleAck := None, "", 0;
      cloudSessions, cloudClosingSessions, enrollmentDeleted := map[], map[], false;
    }

    /** applyDaemonState up to the release of the mutex: the sessions to cancel, or why nothing changed. */
    method ApplyDaemonState(state: StateRecord) returns (refusal: Refusal, cancelled: set<Obj>)
      modifies this`daemonState, this`lifecycleAck
      ensures refusal.InvalidState? <==>
                state.daemonId != cfg.daemonId || state.revision == 0 || state.kind.Unspecified?
      ensures !refusal.InvalidState? ==>
                match old(daemonState)
                case None => refusal.Accepted?
                case Some(held) =>
                  && (refusal.Accepted? <==> state == held || (held.revision < state.revision && !held.kind.Deleted?))
                  && (refusal.Stale? <==> state.revision < held.revision)
                  && (refusal.Conflict? <==> state.revision == held.revision && state != held)
                  && (refusal.Terminal? <==> held.revision < state.revision && held.kind.Deleted?)
      ensures refusal.Accepted? ==>
                && daemonState == Some(state) && View() == Adopt(old(View()), state)
                && cancelled == if state.kind.Active? then {} else old(cloudSessions).Values
      ensures refusal.Accepted? <==> ValidState(cfg, state) && Accepts(old(View()), state)
      ensures !refusal.Accepted? ==> View() == old(View()) && cancelled == {}
    {
      cancelled := {};
      if state.daemonId != cfg.daemonId || state.revision == 0 || state.kind.Unspecified? {
        return InvalidState, {};
      }
      if daemonState.Some? {
        var current := daemonState.value;
        if state.revision < current.revision {
          return Stale, {};
        }
        if state.revision == current.revision && current.revision != 0 && current != state {
          return Conflict, {};
        }
        if current.kind.Deleted? && current != state {
          return Terminal, {};
        }
      }
      if daemonState.None? || daemonState.value.revision != state.revision {
        lifecycleAck := 0;
      }
      daemonState := Some(state);
      if !state.kind.Active? {
        cancelled := cloudSessions.Values;
      }
      return Accepted, cancelled;
    }

    method BeginCloudSession(sid: SessionId, session: Obj) returns (answer: Admission)
      modifies this`cloudSessions
      ensures answer == Admit(cfg, old(View()), sid)
      ensures View() == Begin(cfg, old(View()), sid, session)
    {
      if !(readyConnectionId != "" && daemonState.Some? && daemonState.value.kind.Active?
           && lifecycleAck == daemonState.value.revision) {
        return NotActive;
      }
      if sid in cloudSessions || sid in cloudClosingSessions {
        return Duplicate;
      }
      var limit := if cfg.maxSessions <= 0 then DEFAULT_MAX_SESSIONS else cfg.maxSessions;
      if |cloudSessions| + |cloudClosingSessions| >= limit {
        return Full;
      }
      cloudSessions := cloudSessions[sid := session];
      return Admitted;
    }

    /** Every session moves to the closing table, one at a time. */
    method DetachCloudSessions() returns (count: nat)
      modifies this`cloudSessions, this`cloudClosingSessions
      ensures View() == Detach(old(View())) && count == |old(cloudSessions)|
    {
      count := 0;
      while cloudSessions != map[]
        invariant cloudClosingSessions + cloudSessions == old(cloudClosingSessions) + old(cloudSessions)
        invariant count + |cloudSessions| == |old(cloudSessions)|
        decreases |cloudSessions|
      {
        var sid :| sid in cloudSessions;
        MoveOne(cloudClosingSessions, cloudSessions, sid);
        cloudClosingSessions := cloudClosingSessions[sid := cloudSessions[sid]];
        cloudSessions := cloudSessions - {sid};
        count := count + 1;
      }
    }

    method FinishCloudSession(sid: SessionId, session: Obj)
      modifies this`cloudSessions, this`cloudClosingSessions
      ensures View() == Finish(old(View()), sid, session)
    {
      if sid in cloudSessions && cloudSessions[sid] == session {
        cloudSessions := cloudSessions - {sid};
      }
      if sid in cloudClosingSessions && cloudClosingSessions[sid] == session {
        cloudClosingSessions := cloudClosingSessions - {sid};
      }
    }

    method MarkAgentReady(conn: ConnectionId)
      modifies this`readyConnectionId, this`lifecycleAck
      ensures View() == MarkReady(old(View()), conn)
    {
      readyConnectionId := conn;
      lifecycleAck := 0;
    }

    method ClearAgentReady(conn: ConnectionId)
      modifies this`readyConnectionId, this`lifecycleAck
      ensures View() == ClearReady(old(View()), conn)
    {
      if readyConnectionId == conn {
        readyConnectionId := "";
        lifecycleAck := 0;
      }
    }

    method MarkLifecycleAcknowledged(conn: ConnectionId, revision: nat)
      modifies this`lifecycleAck
      ensures View() == MarkAck(old(View()), conn, revision)
    {
      if readyConnectionId == conn && daemonState.Some? && daemonState.value.revision == revision {
        lifecycleAck := revision;
      }
    }
  }

  lemma MoveOne(closing: map<SessionId, Obj>, sessions: map<SessionId, Obj>, sid: SessionId)
    requires sid in sessions
    ensures closing[sid := sessions[sid]] + (sessions - {sid}) == closing + sessions
    ensures |sessions - {sid}| == |sessions| - 1
  {
    assert (sessions - {sid}).Keys == sessions.Keys - {sid};
  }
}
