/** The machine's events one by one as functions, short runs that nothing interrupts, and where they lead. */
module UploadScripts {
  import opened Prelude
  import opened UploadState
  import opened UploadMachine

  // ---- Single events ------------------------------------------------------------------------

  /** A data frame up to the lookup of persist. */
  function Fed(s: State, h: nat, offset: int, raw: seq<byte>, now: int): State
    requires h < |s.handles|
  {
    var u := s.handles[h];
    Apply(s, u.id, Feed(h, u, if u.file.Some? && u.file.value in s.inodes then s.inodes[u.file.value] else [],
                        Get(s.store, u.id), offset, raw, now))
  }

  /** A finish frame up to the existence check of publish. */
  function Finished(s: State, h: nat, size: int, digest: Digest, sha: Sha): State
    requires h < |s.handles|
  {
    Apply(s, s.handles[h].id, Finish(h, s.handles[h], s.handles[h].path in s.names, size, digest, sha))
  }

  /** The next piece of the frame in progress. */
  function Worked(s: State, h: nat, ok: bool): State
    requires h < |s.handles|
  {
    Apply(s, s.handles[h].id, Proceed(h, s.handles[h], Content(s, s.handles[h].temp), Listed(s, h), ok))
  }

  function Claimed(s: State, h: nat, abort: bool): State
    requires h < |s.handles|
  {
    Apply(s, s.handles[h].id, Claim(h, s.handles[h], abort))
  }

  /** The next piece of a Close or an abort. */
  function Stopped(s: State, h: nat, now: int, ok: bool): State
    requires h < |s.handles|
  {
    Apply(s, s.handles[h].id, Stop(h, s.handles[h], Get(s.store, s.handles[h].id), Listed(s, h), now, ok))
  }

  function Advanced(s: State, id: Id, ok: bool): State
    requires id in s.opens
  {
    Apply(s, id, Advance(s, id, ok))
  }

  function Removed(s: State, i: nat, ok: bool): State
    requires i < |s.removals|
  {
    Apply(s, s.removals[i].id, Remove(s, i, ok))
  }

  function TokenCancelled(s: State, id: Id): State {
    Apply(s, id, NOTHING.(begin := Some(if id in s.uploads then Aborting(s.uploads[id]) else LookingUp)))
  }

  function ResourceCancelled(s: State, id: Id): State {
    Apply(s, id, NOTHING.(begin := Some(if id in s.uploads then Aborting(s.uploads[id]) else Answered(false))))
  }

  function SeenExpired(s: State, id: Id): State
    requires id in s.store
  {
    Apply(s, id, NOTHING.(begin := Some(Testing(s.store[id].temp))))
  }

  function Resumed(s: State, id: Id, req: OpenRequest): State {
    Apply(s, id, NOTHING.(slot := Filled(if id in s.uploads then Displacing(s.uploads[id], req) else Looking(req))))
  }

  /** Each of these is one step of the machine. */
  lemma FrameSteps(s: State, h: nat, offset: int, raw: seq<byte>, size: int, digest: Digest, now: int, sha: Sha)
    requires h < |s.handles|
    ensures Step(s, DataFrame(h, offset, raw, now), sha) == Fed(s, h, offset, raw, now)
    ensures Step(s, FinishFrame(h, size, digest), sha) == Finished(s, h, size, digest, sha)
  {
  }

  lemma WorkStep(s: State, h: nat, ok: bool, sha: Sha)
    requires h < |s.handles|
    ensures Step(s, WorkNext(h, ok), sha) == Worked(s, h, ok)
  {
  }

  lemma StopSteps(s: State, h: nat, now: int, ok: bool, sha: Sha)
    requires h < |s.handles|
    ensures Step(s, StopNext(h, now, ok), sha) == Stopped(s, h, now, ok)
    ensures Step(s, CloseHandle(h), sha) == Claimed(s, h, false)
  {
  }

  lemma OpenStep(s: State, id: Id, ok: bool, sha: Sha)
    requires id in s.opens
    ensures Step(s, OpenNext(id, ok), sha) == Advanced(s, id, ok)
  {
  }

  lemma ResumeStep(s: State, id: Id, req: OpenRequest, sha: Sha)
    requires MayResume(s, id, req)
    ensures Step(s, Resume(id, req), sha) == Resumed(s, id, req)
  {
  }

  lemma RemovalStep(s: State, i: nat, ok: bool, sha: Sha)
    requires i < |s.removals|
    ensures Step(s, RemovalNext(i, ok), sha) == Removed(s, i, ok)
  {
  }

  lemma BeginSteps(s: State, id: Id, now: int, sha: Sha)
    ensures Step(s, CancelToken(id), sha) == TokenCancelled(s, id)
    ensures Step(s, CancelResource(id), sha) == ResourceCancelled(s, id)
    ensures id in s.store && s.store[id].expiresAt <= now ==> Step(s, SeeExpired(id, now), sha) == SeenExpired(s, id)
  {
  }

  /** A cancel's or a takeover's turn at the once-guard is what taking it is for the handle. */
  lemma TurnIsClaim(s: State, h: nat, i: nat, id: Id, ok: bool)
    requires h < |s.handles| && s.handles[h].id == id && !HasEnded(s, h)
    ensures i < |s.removals| && s.removals[i] == Removal(id, Aborting(h)) ==> Removed(s, i, ok) == Claimed(s, h, true)
    ensures id in s.opens && s.opens[id].Displacing? && s.opens[id].h == h ==>
              Advanced(s, id, ok) == Claimed(s, h, false)
  {
  }

  // ---- A fresh open -------------------------------------------------------------------------

  /** A fresh open and its handle, with the record stored and saved. */
  function Opened(s: State, req: OpenRequest): State
    requires 0 <= req.size
  {
    var t := Created(s, req);
    var rec := NewRecord(req);
    State(t.store[req.newId := rec], t.store[req.newId := rec], t.names, t.inodes,
          t.uploads[req.newId := |s.handles|], s.handles + [NewHandle(req.newId, rec, req.newIno, [], req)],
          s.opens, s.removals, t.hist)
  }

  function OpenScript(req: OpenRequest): seq<Event> {
    [Create(req), OpenNext(req.newId, true), OpenNext(req.newId, true)]
  }

  lemma StoreStep(s: State, req: OpenRequest, sha: Sha)
    requires FreshUpload(s, req)
    ensures Step(Created(s, req), OpenNext(req.newId, true), sha) == Recorded(s, req)
  {
    var m := Created(s, req).hist.made[req.newId];
    assert NewInfo(m, NOTHING.(op := Write(Renewed(NewRecord(req), req)))) == m;
    assert Renewed(NewRecord(req), req) == NewRecord(req);
  }

  lemma ListStep(s: State, t: State, req: OpenRequest, sha: Sha)
    requires 0 <= req.size && t == s.(opens := t.opens)
    requires t.opens == s.opens[req.newId := Stored(NewRecord(req), req.newIno, [], req)]
    requires req.newId !in s.opens
    ensures Step(t, OpenNext(req.newId, true), sha) ==
            s.(uploads := s.uploads[req.newId := |s.handles|],
               handles := s.handles + [NewHandle(req.newId, NewRecord(req), req.newIno, [], req)])
  {
    assert t.opens - {req.newId} == s.opens;
  }

  /** The new upload between store update and listing. */
  function Recorded(s: State, req: OpenRequest): State
    requires 0 <= req.size
  {
    var t := Created(s, req);
    t.(store := t.store[req.newId := NewRecord(req)], saved := t.store[req.newId := NewRecord(req)],
       opens := t.opens[req.newId := Stored(NewRecord(req), req.newIno, [], req)])
  }

  lemma RecordedOpens(s: State, req: OpenRequest, sha: Sha)
    requires FreshUpload(s, req)
    ensures Step(Recorded(s, req), OpenNext(req.newId, true), sha) == Opened(s, req)
  {
    var base := Recorded(s, req).(opens := s.opens);
    assert Recorded(s, req).opens == s.opens[req.newId := Stored(NewRecord(req), req.newIno, [], req)];
    ListStep(base, Recorded(s, req), req, sha);
  }

  lemma CreateOpens(s: State, req: OpenRequest, sha: Sha)
    requires FreshUpload(s, req)
    ensures RunFrom(s, OpenScript(req), sha) == Opened(s, req)
  {
    var e := OpenNext(req.newId, true);
    RunCons(s, Create(req), [e, e], sha);
    assert [Create(req)] + [e, e] == OpenScript(req);
    CreatedOpens(s, req, sha);
  }

  lemma CreatedOpens(s: State, req: OpenRequest, sha: Sha)
    requires FreshUpload(s, req)
    ensures var e := OpenNext(req.newId, true); RunFrom(Created(s, req), [e, e], sha) == Opened(s, req)
  {
    var e := OpenNext(req.newId, true);
    RunOf2(Created(s, req), e, e, sha);
    StoreStep(s, req, sha);
    RecordedOpens(s, req, sha);
  }
}
