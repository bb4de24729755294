/** The operations of the service object are runs of the machine: from a reachable state they lead to one. */
module UploadOperations {
  import opened Prelude
  import opened UploadState
  import opened UploadMachine
  import opened UploadRuns
  import opened UploadScripts
  import opened UploadCalls

  /** The run, with polite targets, ends here. */
  ghost predicate EndsIn(before: seq<Event>, s: State, sha: Sha) {
    AllPolite(before) && s == Run(before, sha)
  }

  ghost predicate Reachable(s: State, sha: Sha) {
    exists before :: EndsIn(before, s, sha)
  }

  lemma EndsInStep(before: seq<Event>, s: State, e: Event, sha: Sha)
    requires EndsIn(before, s, sha) && Polite(e)
    ensures EndsIn(before + [e], Step(s, e, sha), sha)
  {
    RunSnoc(INITIAL, before, e, sha);
  }

  lemma StepReaches(s: State, e: Event, sha: Sha)
    requires Reachable(s, sha) && Polite(e)
    ensures Reachable(Step(s, e, sha), sha)
  {
    var before :| EndsIn(before, s, sha);
    EndsInStep(before, s, e, sha);
  }

  // ---- Piece by piece -----------------------------------------------------------------------

  lemma FedReaches(s: State, h: nat, offset: int, raw: seq<byte>, now: int, sha: Sha)
    requires Reachable(s, sha) && h < |s.handles|
    ensures Reachable(Fed(s, h, offset, raw, now), sha)
  {
    FrameSteps(s, h, offset, raw, 0, [], now, sha);
    StepReaches(s, DataFrame(h, offset, raw, now), sha);
  }

  lemma FinishedReaches(s: State, h: nat, size: int, digest: Digest, sha: Sha)
    requires Reachable(s, sha) && h < |s.handles|
    ensures Reachable(Finished(s, h, size, digest, sha), sha)
  {
    FrameSteps(s, h, 0, [], size, digest, 0, sha);
    StepReaches(s, FinishFrame(h, size, digest), sha);
  }

  lemma WorkedReaches(s: State, h: nat, ok: bool, sha: Sha)
    requires Reachable(s, sha) && h < |s.handles|
    ensures Reachable(Worked(s, h, ok), sha)
  {
    WorkStep(s, h, ok, sha);
    StepReaches(s, WorkNext(h, ok), sha);
  }

  lemma StoppedReaches(s: State, h: nat, now: int, ok: bool, sha: Sha)
    requires Reachable(s, sha) && h < |s.handles|
    ensures Reachable(Stopped(s, h, now, ok), sha)
  {
    StopSteps(s, h, now, ok, sha);
    StepReaches(s, StopNext(h, now, ok), sha);
  }

  lemma AdvancedReaches(s: State, id: Id, ok: bool, sha: Sha)
    requires Reachable(s, sha) && id in s.opens
    ensures Reachable(Advanced(s, id, ok), sha)
  {
    OpenStep(s, id, ok, sha);
    StepReaches(s, OpenNext(id, ok), sha);
  }

  lemma RemovedReaches(s: State, i: nat, ok: bool, sha: Sha)
    requires Reachable(s, sha) && i < |s.removals|
    ensures Reachable(Removed(s, i, ok), sha)
  {
    RemovalStep(s, i, ok, sha);
    StepReaches(s, RemovalNext(i, ok), sha);
  }

  lemma CancelledReaches(s: State, id: Id, sha: Sha)
    requires Reachable(s, sha)
    ensures Reachable(TokenCancelled(s, id), sha)
  {
    BeginSteps(s, id, 0, sha);
    StepReaches(s, CancelToken(id), sha);
  }

  lemma SeenReaches(s: State, id: Id, now: int, sha: Sha)
    requires Reachable(s, sha) && id in s.store && s.store[id].expiresAt <= now
    ensures Reachable(SeenExpired(s, id), sha)
  {
    BeginSteps(s, id, now, sha);
    StepReaches(s, SeeExpired(id, now), sha);
  }

  // ---- Whole operations ---------------------------------------------------------------------

  /** A data frame and the store update that it may call for. */
  lemma DataIsRun(s: State, h: nat, offset: int, raw: seq<byte>, now: int, putOk: bool, sha: Sha)
    requires Reachable(s, sha) && h < |s.handles|
    ensures Reachable(Worked(Fed(s, h, offset, raw, now), h, putOk), sha)
  {
    FedReaches(s, h, offset, raw, now, sha);
    WorkedReaches(Fed(s, h, offset, raw, now), h, putOk, sha);
  }

  lemma FinishIsRun(s: State, h: nat, size: int, digest: Digest, putOk: bool, sendOk: bool, sha: Sha)
    requires Reachable(s, sha) && h < |s.handles|
    ensures Reachable(FinishThrough(s, h, size, digest, sha, putOk, sendOk), sha)
  {
    var t := Finished(s, h, size, digest, sha);
    FinishedReaches(s, h, size, digest, sha);
    ThreeWorked(t, h, putOk, sendOk, sha);
  }

  lemma ThreeWorked(t: State, h: nat, putOk: bool, sendOk: bool, sha: Sha)
    requires Reachable(t, sha) && h < |t.handles|
    ensures Reachable(Worked(Worked(Worked(t, h, true), h, putOk), h, sendOk), sha)
  {
    WorkedReaches(t, h, true, sha);
    WorkedReaches(Worked(t, h, true), h, putOk, sha);
    WorkedReaches(Worked(Worked(t, h, true), h, putOk), h, sendOk, sha);
  }

  lemma ClaimedReaches(s: State, h: nat, sha: Sha)
    requires Reachable(s, sha) && h < |s.handles|
    ensures Reachable(Claimed(s, h, false), sha)
  {
    StopSteps(s, h, 0, true, sha);
    StepReaches(s, CloseHandle(h), sha);
  }

  lemma TwoStopped(t: State, h: nat, now: int, ok1: bool, ok2: bool, sha: Sha)
    requires Reachable(t, sha) && h < |t.handles|
    ensures h < |Stopped(t, h, now, ok1).handles| && Reachable(Stopped(Stopped(t, h, now, ok1), h, now, ok2), sha)
  {
    StoppedReaches(t, h, now, ok1, sha);
    StoppedReaches(Stopped(t, h, now, ok1), h, now, ok2, sha);
  }

  lemma CloseIsRun(s: State, h: nat, now: int, putOk: bool, sha: Sha)
    requires Reachable(s, sha) && h < |s.handles|
    ensures Reachable(CloseThrough(s, h, now, putOk), sha)
  {
    ClaimedReaches(s, h, sha);
    var c := Claimed(s, h, false);
    StoppedReaches(c, h, now, true, sha);
    var t := Stopped(c, h, now, true);
    if t.handles[h].closing.Stopping? && t.handles[h].closing.stage.Saving? {
      TwoStopped(t, h, now, putOk, true, sha);
    } else {
      StoppedReaches(t, h, now, true, sha);
    }
  }

  /** The guard of a cancel that has found handle `h` active, then the abort. */
  lemma AbortReaches(s: State, h: nat, i: nat, now: int, putOk: bool, sha: Sha)
    requires Reachable(s, sha) && h < |s.handles| && i < |s.removals|
    requires s.removals[i] == Removal(s.handles[h].id, Aborting(h)) && s.handles[h].closing.Running?
    ensures Reachable(AbortThrough(s, h, now, putOk), sha)
  {
    TurnIsClaim(s, h, i, s.handles[h].id, true);
    RemovedReaches(s, i, true, sha);
    FourStopped(Claimed(s, h, true), h, now, putOk, sha);
  }

  lemma FourStopped(c: State, h: nat, now: int, putOk: bool, sha: Sha)
    requires Reachable(c, sha) && h < |c.handles|
    ensures var t := Stopped(Stopped(c, h, now, true), h, now, true);
            Reachable(Stopped(Stopped(t, h, now, true), h, now, putOk), sha)
  {
    TwoStopped(c, h, now, true, true, sha);
    TwoStopped(Stopped(Stopped(c, h, now, true), h, now, true), h, now, true, putOk, sha);
  }

  lemma TwoRemoved(t: State, i: nat, putOk: bool, sha: Sha)
    requires Reachable(t, sha) && i < |t.removals|
    ensures Reachable(Removed(Removed(t, i, true), i, putOk), sha)
  {
    RemovedReaches(t, i, true, sha);
    RemovedReaches(Removed(t, i, true), i, putOk, sha);
  }

  lemma CancelIsRun(s: State, id: Id, now: int, putOk: bool, sha: Sha)
    requires Reachable(s, sha)
    requires id in s.uploads ==>
               var h := s.uploads[id]; h < |s.handles| && s.handles[h].id == id && s.handles[h].closing.Running?
    ensures Reachable(CancelThrough(s, id, now, putOk), sha)
  {
    var i, t := |s.removals|, TokenCancelled(s, id);
    CancelledReaches(s, id, sha);
    if id in s.uploads {
      AbortReaches(t, s.uploads[id], i, now, putOk, sha);
      var r := AbortThrough(t, s.uploads[id], now, putOk);
      if i < |r.removals| { RemovedReaches(r, i, true, sha); }
    } else {
      RemovedReaches(t, i, true, sha);
      if id in s.store { TwoRemoved(Removed(t, i, true), i, putOk, sha); }
    }
  }

  lemma ResourceCancelIsRun(s: State, id: Id, now: int, putOk: bool, sha: Sha)
    requires Reachable(s, sha)
    requires id in s.uploads ==>
               var h := s.uploads[id]; h < |s.handles| && s.handles[h].id == id && s.handles[h].closing.Running?
    ensures Reachable(ResourceCancelThrough(s, id, now, putOk), sha)
  {
    var i, t := |s.removals|, ResourceCancelled(s, id);
    BeginSteps(s, id, 0, sha);
    StepReaches(s, CancelResource(id), sha);
    if id in s.uploads {
      AbortReaches(t, s.uploads[id], i, now, putOk, sha);
      var r := AbortThrough(t, s.uploads[id], now, putOk);
      if i < |r.removals| { RemovedReaches(r, i, true, sha); }
    }
  }

  lemma ExpireReaches(s: State, id: Id, now: int, putOk: bool, sha: Sha)
    requires Reachable(s, sha) && id in s.store && s.store[id].expiresAt <= now
    ensures Reachable(ExpireThrough(s, id, putOk), sha)
  {
    var i, t := |s.removals|, SeenExpired(s, id);
    SeenReaches(s, id, now, sha);
    RemovedReaches(t, i, true, sha);
    if id !in s.uploads { TwoRemoved(Removed(t, i, true), i, putOk, sha); }
  }

  lemma {:induction false} PassIsRun(s: State, now: int, ids: seq<Id>, saves: Saves, sha: Sha)
    requires Reachable(s, sha)
    ensures Reachable(ExpireList(s, now, ids, saves), sha)
  {
    if ids != [] {
      var id, t := ids[|ids| - 1], ExpireList(s, now, ids[..|ids| - 1], saves);
      PassIsRun(s, now, ids[..|ids| - 1], saves, sha);
      if id in t.store && t.store[id].expiresAt <= now { ExpireReaches(t, id, now, saves(id), sha); }
    }
  }

  lemma AttachReaches(s: State, id: Id, putOk: bool, sha: Sha)
    requires Reachable(s, sha) && id in s.opens
    ensures Reachable(AttachThrough(s, id, putOk), sha)
  {
    AdvancedReaches(s, id, putOk, sha);
    if id in Advanced(s, id, putOk).opens { AdvancedReaches(Advanced(s, id, putOk), id, true, sha); }
  }

  lemma LookReaches(s: State, id: Id, putOk: bool, sha: Sha)
    requires Reachable(s, sha) && id in s.opens
    ensures Reachable(LookThrough(s, id, putOk), sha)
  {
    var t := Advanced(s, id, true);
    AdvancedReaches(s, id, true, sha);
    if id in t.opens {
      var r := Advanced(t, id, true);
      AdvancedReaches(t, id, true, sha);
      if id in r.opens {
        AdvancedReaches(r, id, putOk, sha);
        AttachReaches(r, id, putOk, sha);
      }
    }
  }

  lemma ResumedReaches(s: State, id: Id, req: OpenRequest, sha: Sha)
    requires Reachable(s, sha) && MayResume(s, id, req)
    ensures Reachable(Resumed(s, id, req), sha)
  {
    ResumeStep(s, id, req, sha);
    StepReaches(s, Event.Resume(id, req), sha);
  }

  lemma ResumeIsRun(s: State, id: Id, req: OpenRequest, closeOk: bool, putOk: bool, sha: Sha)
    requires Reachable(s, sha) && MayResume(s, id, req) && (id in s.uploads ==> s.uploads[id] < |s.handles|)
    ensures Reachable(ResumeThrough(s, id, req, closeOk, putOk), sha)
  {
    var t := Resumed(s, id, req);
    ResumedReaches(s, id, req, sha);
    if id !in s.uploads {
      LookReaches(t, id, putOk, sha);
    } else {
      CloseIsRun(t, s.uploads[id], req.now, closeOk, sha);
      var r := CloseThrough(t, s.uploads[id], req.now, closeOk);
      if id in r.opens {
        AdvancedReaches(r, id, true, sha);
        if id in Advanced(r, id, true).opens { LookReaches(Advanced(r, id, true), id, putOk, sha); }
      }
    }
  }

  /** A token of no upload is looked up in vain. */
  lemma UnknownResume(s: State, id: Id, req: OpenRequest, closeOk: bool, putOk: bool)
    requires id !in s.hist.made && id !in s.store && id !in s.uploads && id !in s.opens
    ensures ResumeThrough(s, id, req, closeOk, putOk) == s
  {
    var t := Resumed(s, id, req);
    assert t == s.(opens := s.opens[id := Looking(req)]);
    assert Advanced(t, id, true) == t.(opens := t.opens - {id});
    assert s.opens[id := Looking(req)] - {id} == s.opens;
  }

  lemma KnownIds(s: State, id: Id, sha: Sha)
    requires Reachable(s, sha) && id !in s.hist.made
    ensures id !in s.store && id !in s.uploads
  {
    var before :| EndsIn(before, s, sha);
    RunInv(before, sha);
  }

  lemma AnyResumeIsRun(s: State, id: Id, req: OpenRequest, closeOk: bool, putOk: bool, sha: Sha)
    requires Reachable(s, sha) && 0 <= req.size && id !in s.opens
    requires id in s.uploads ==> s.uploads[id] < |s.handles| && s.handles[s.uploads[id]].owner != req.owner
    ensures Reachable(ResumeThrough(s, id, req, closeOk, putOk), sha)
  {
    if id in s.hist.made {
      ResumeIsRun(s, id, req, closeOk, putOk, sha);
    } else {
      KnownIds(s, id, sha);
      UnknownResume(s, id, req, closeOk, putOk);
    }
  }

  /** What the operating system and the random source supply is new, and the callers keep their side. */
  ghost predicate Reasonable(s: State, req: OpenRequest) {
    && (0 <= req.size ==> FreshUpload(s, req) && !IsTempName(req.target))
    && (req.resume.FromToken? ==> req.resume.id !in s.opens)
  }

  lemma PassKeepsReasonable(s: State, now: int, ids: seq<Id>, saves: Saves, req: OpenRequest)
    requires Distinct(ids) && Reasonable(s, req)
    ensures var p := ExpireList(s, now, ids, saves);
            && Reasonable(p, req) && p.uploads == s.uploads && p.handles == s.handles
  {
    PassDropsExpired(s, now, ids, saves);
    PassUnlinksExpired(s, now, ids, saves);
    PassKeepsHistory(s, now, ids, saves);
  }

  lemma {:induction false} PassKeepsHistory(s: State, now: int, ids: seq<Id>, saves: Saves)
    ensures ExpireList(s, now, ids, saves).hist == s.hist
  {
    if ids != [] {
      var id, t := ids[|ids| - 1], ExpireList(s, now, ids[..|ids| - 1], saves);
      PassKeepsHistory(s, now, ids[..|ids| - 1], saves);
      if id in t.store && t.store[id].expiresAt <= now { ExpireKeepsHistory(t, id, saves(id)); }
    }
  }

  lemma RemovalKeepsHistory(s: State, id: Id, c: Change)
    requires !c.op.Write? && c.fed.None? && c.published.None?
    ensures Apply(s, id, c).hist == s.hist
  {
    if id in s.hist.made { assert s.hist.made[id := s.hist.made[id]] == s.hist.made; }
  }

  lemma RemovedKeepsHistory(s: State, i: nat, ok: bool)
    requires i < |s.removals|
    ensures Removed(s, i, ok).hist == s.hist && |Removed(s, i, ok).removals| == |s.removals|
  {
    RemovalKeepsHistory(s, s.removals[i].id, Remove(s, i, ok));
  }

  lemma ExpireKeepsHistory(s: State, id: Id, putOk: bool)
    requires id in s.store
    ensures ExpireThrough(s, id, putOk).hist == s.hist
  {
    var i, t := |s.removals|, SeenExpired(s, id);
    RemovalKeepsHistory(s, id, NOTHING.(begin := Some(Testing(s.store[id].temp))));
    RemovedKeepsHistory(t, i, true);
    if id !in s.uploads {
      RemovedKeepsHistory(Removed(t, i, true), i, true);
      RemovedKeepsHistory(Removed(Removed(t, i, true), i, true), i, putOk);
    }
  }

  /** An open of any kind: the expiry pass, then a fresh upload, a takeover and resume, or a refusal. */
  lemma OpenIsRun(s: State, req: OpenRequest, order: seq<Id>, saves: Saves, closeOk: bool, putOk: bool, sha: Sha)
    requires Reachable(s, sha) && Distinct(order) && Reasonable(s, req) && forall id :: id in s.uploads ==>
               s.uploads[id] < |s.handles|
    ensures Reachable(OpenThrough(s, req, order, saves, closeOk, putOk), sha)
  {
    if 0 <= req.size {
      var p := ExpireList(s, req.now, order, saves);
      PassIsRun(s, req.now, order, saves, sha);
      PassKeepsReasonable(s, req.now, order, saves, req);
      match req.resume
      case BadToken =>
      case FromToken(id) =>
        if !(id in p.uploads && p.handles[p.uploads[id]].owner == req.owner) {
          AnyResumeIsRun(p, id, req, closeOk, putOk, sha);
        }
      case NoResume =>
        StepReaches(p, Create(req), sha);
        AttachReaches(Created(p, req), req.newId, putOk, sha);
    }
  }
}
