/**
 The runs in which overlapping operations on one upload surprise: a cancel that a resume undoes, an
 expiry pass that drops an upload closed a moment ago, a cancel that answers yes and removes nothing, a
 cancel that answers yes and leaves the upload published.
 */
module UploadFailures {
  import opened Prelude
  import opened UploadState
  import opened UploadMachine
  import opened UploadInvariant
  import opened UploadRuns
  import opened UploadGone
  import opened UploadScripts
  import opened UploadWaits
  import opened UploadCancels

  // ---- Close, as four events ----------------------------------------------------------------

  /** An open handle with nothing under way. */
  predicate InUse(s: State, h: nat) {
    && h < |s.handles| && Listed(s, h) && s.handles[h].id in s.store
    && var u := s.handles[h]; u.file.Some? && u.work.Idle? && !u.completed && u.closing.Running?
  }

  /** Everything but handles, table and records is as before. */
  predicate Rest(s: State, t: State) {
    && t.names == s.names && t.opens == s.opens && t.removals == s.removals && t.hist.made.Keys == s.hist.made.Keys
    && |t.handles| == |s.handles|
  }

  function Renewal(s: State, h: nat, now: int): Record
    requires h < |s.handles| && s.handles[h].id in s.store
  {
    s.store[s.handles[h].id].(offset := s.handles[h].offset, expiresAt := now + RESUME_TTL)
  }

  lemma GuardTaken(s: State, h: nat, sha: Sha)
    requires InUse(s, h)
    ensures var t := Step(s, CloseHandle(h), sha);
            && Rest(s, t) && t.store == s.store && t.uploads == s.uploads
            && t.handles[h] == s.handles[h].(closing := Stopping(false, Waiting))
  {
  }

  lemma LockTaken(s: State, h: nat, now: int, sha: Sha)
    requires h < |s.handles| && s.handles[h].id in s.store && s.handles[h].work.Idle? && !s.handles[h].completed
    requires s.handles[h].closing == Stopping(false, Waiting)
    ensures var t := Step(s, StopNext(h, now, true), sha);
            && Rest(s, t) && t.store == s.store && t.uploads == s.uploads && t.handles[h].id == s.handles[h].id
            && t.handles[h].closing == Stopping(false, Saving(Renewal(s, h, now)))
  {
  }

  lemma SavedAndGone(s: State, h: nat, now: int, sha: Sha)
    requires h < |s.handles| && Listed(s, h) && s.handles[h].closing.Stopping?
    requires s.handles[h].closing.stage.Saving? && !s.handles[h].closing.abort
    ensures var t := Step(Step(s, StopNext(h, now, true), sha), StopNext(h, now, true), sha); var id := s.handles[h].id;
            Rest(s, t) && id in t.store && id !in t.uploads && t.store[id] == s.handles[h].closing.stage.rec
  {
    CloseSavesAndLetsGo(s, h, now, now, sha);
    CloseSaves(s, h, now, sha);
    SaveRest(s, h, now, sha);
    UnlistRest(Step(s, StopNext(h, now, true), sha), h, now, sha);
  }

  lemma SaveRest(s: State, h: nat, now: int, sha: Sha)
    requires h < |s.handles| && s.handles[h].closing.Stopping? && s.handles[h].closing.stage.Saving?
    ensures Rest(s, Step(s, StopNext(h, now, true), sha))
  {
  }

  lemma UnlistRest(s: State, h: nat, now: int, sha: Sha)
    requires h < |s.handles| && s.handles[h].closing == Stopping(false, Unlisting)
    ensures Rest(s, Step(s, StopNext(h, now, true), sha))
  {
  }

  function CloseScript(h: nat, now: int): seq<Event> {
    [CloseHandle(h)] + ([StopNext(h, now, true)] + [StopNext(h, now, true), StopNext(h, now, true)])
  }

  /** A Close that nothing interrupts leaves the renewed record, saved, and no table entry. */
  lemma CloseRuns(s: State, h: nat, now: int, sha: Sha)
    requires InUse(s, h)
    ensures var t := RunFrom(s, CloseScript(h, now), sha); var id := s.handles[h].id;
            Rest(s, t) && id in t.store && id !in t.uploads && t.store[id] == Renewal(s, h, now)
  {
    var e := StopNext(h, now, true);
    RunCons(s, CloseHandle(h), [e] + [e, e], sha);
    GuardTaken(s, h, sha);
    var t := Step(s, CloseHandle(h), sha);
    LockRuns(t, h, now, sha);
  }

  lemma LockRuns(s: State, h: nat, now: int, sha: Sha)
    requires h < |s.handles| && Listed(s, h) && s.handles[h].id in s.store && s.handles[h].work.Idle?
    requires !s.handles[h].completed
    requires s.handles[h].closing == Stopping(false, Waiting)
    ensures var e := StopNext(h, now, true); var t := RunFrom(s, [e] + [e, e], sha); var id := s.handles[h].id;
            Rest(s, t) && id in t.store && id !in t.uploads && t.store[id] == Renewal(s, h, now)
  {
    var e := StopNext(h, now, true);
    RunCons(s, e, [e, e], sha);
    LockTaken(s, h, now, sha);
    var t := Step(s, e, sha);
    RunOf2(t, e, e, sha);
    SavedAndGone(t, h, now, sha);
  }

  // ---- A removal, as three events -----------------------------------------------------------

  /** A cancel or expiry about to look, of an upload that is not on the table. */
  predicate AboutToRemove(s: State, id: Id, i: nat) {
    && i < |s.removals| && s.removals[i].id == id && id in s.hist.made && id in s.store && id !in s.uploads
    && s.store[id].temp == s.hist.made[id].temp
    && (s.removals[i].stage == LookingUp || s.removals[i].stage == Testing(s.hist.made[id].temp))
  }

  predicate SameUpload(s: State, t: State, id: Id) {
    && id in s.hist.made && id in t.hist.made && t.hist.made[id].temp == s.hist.made[id].temp && t.opens == s.opens
    && |t.removals| == |s.removals|
  }

  lemma Looked(s: State, id: Id, i: nat, sha: Sha)
    requires AboutToRemove(s, id, i)
    ensures var t := Step(s, RemovalNext(i, true), sha);
            && SameUpload(s, t, id) && id in t.store && t.removals[i] == Removal(id, Unlinking(s.hist.made[id].temp))
  {
  }

  lemma Unlinked(s: State, id: Id, i: nat, sha: Sha)
    requires i < |s.removals| && id in s.hist.made && id in s.store
    requires s.removals[i] == Removal(id, Unlinking(s.hist.made[id].temp))
    ensures var t := Step(s, RemovalNext(i, true), sha);
            && SameUpload(s, t, id) && id in t.store && s.hist.made[id].temp !in t.names
            && t.removals[i] == Removal(id, Erasing)
  {
  }

  lemma Erased(s: State, id: Id, i: nat, sha: Sha)
    requires i < |s.removals| && id in s.hist.made && id in s.store && s.removals[i] == Removal(id, Erasing)
    ensures var t := Step(s, RemovalNext(i, true), sha);
            && SameUpload(s, t, id) && id !in t.store && id !in t.saved && t.names == s.names
            && t.removals[i] == Removal(id, Answered(true))
  {
  }

  function RemovalScript(i: nat): seq<Event> {
    [RemovalNext(i, true)] + [RemovalNext(i, true), RemovalNext(i, true)]
  }

  lemma RemovalRuns(s: State, id: Id, i: nat, sha: Sha)
    requires AboutToRemove(s, id, i)
    ensures var t := RunFrom(s, RemovalScript(i), sha);
            && SameUpload(s, t, id) && id !in t.store && id !in t.saved && s.hist.made[id].temp !in t.names
            && t.removals[i] == Removal(id, Answered(true))
  {
    var e := RemovalNext(i, true);
    RunCons(s, e, [e, e], sha);
    Looked(s, id, i, sha);
    var t := Step(s, e, sha);
    RunOf2(t, e, e, sha);
    Unlinked(t, id, i, sha);
    Erased(Step(t, e, sha), id, i, sha);
  }

  // ---- An expiry pass drops a record that was closed since it looked -------------------------

  lemma PassSees(s: State, h: nat, now: int, sha: Sha)
    requires InUse(s, h) && s.store[s.handles[h].id].expiresAt <= now
    ensures var t := Step(s, SeeExpired(s.handles[h].id, now), sha); var id := s.handles[h].id;
            && InUse(t, h) && t.handles == s.handles && t.store == s.store && t.hist.made.Keys == s.hist.made.Keys
            && t.removals == s.removals + [Removal(id, Testing(s.store[id].temp))]
  {
  }

  function SeeThenClose(id: Id, h: nat, now: int, later: int): seq<Event> {
    [SeeExpired(id, now)] + CloseScript(h, later)
  }

  lemma SeenThenClosed(s: State, h: nat, now: int, later: int, sha: Sha)
    requires InUse(s, h) && s.store[s.handles[h].id].expiresAt <= now
    ensures var id := s.handles[h].id; var t := RunFrom(s, SeeThenClose(id, h, now, later), sha);
            && id in t.store && id !in t.uploads && t.store[id].expiresAt == later + RESUME_TTL
            && t.removals == s.removals + [Removal(id, Testing(s.store[id].temp))]
  {
    var e := SeeExpired(s.handles[h].id, now);
    PassSees(s, h, now, sha);
    RunCons(s, e, CloseScript(h, later), sha);
    CloseRuns(Step(s, e, sha), h, later, sha);
  }

  lemma CloseIsPolite(id: Id, h: nat, now: int, later: int)
    ensures AllPolite(SeeThenClose(id, h, now, later)) && AllPolite(CloseScript(h, now))
  {
  }

  /**
   An expiry pass sees the expired record of an open upload; the upload is closed before the pass looks at
   the table. The close has renewed the record, and the pass then removes it with its file.
   */
  lemma StaleExpiryDropsRenewed(s: State, h: nat, now: int, later: int, sha: Sha)
    requires Inv(s, sha) && InUse(s, h) && s.store[s.handles[h].id].expiresAt <= now
    ensures var id := s.handles[h].id;
            var t := RunFrom(s, SeeThenClose(id, h, now, later), sha);
            && id in t.store && id !in t.uploads && t.store[id].expiresAt == later + RESUME_TTL && id in t.hist.made
            && var r := RunFrom(t, RemovalScript(|s.removals|), sha);
               id !in r.store && id !in r.saved && t.hist.made[id].temp !in r.names
  {
    var id, i := s.handles[h].id, |s.removals|;
    SeenThenClosed(s, h, now, later, sha);
    CloseIsPolite(id, h, now, later);
    StaleIsAboutToRemove(s, SeeThenClose(id, h, now, later), id, i, sha);
    RemovalRuns(RunFrom(s, SeeThenClose(id, h, now, later), sha), id, i, sha);
  }

  lemma StaleIsAboutToRemove(s: State, closed: seq<Event>, id: Id, i: nat, sha: Sha)
    requires Inv(s, sha) && AllPolite(closed)
    requires var t := RunFrom(s, closed, sha);
             && i < |t.removals| && t.removals[i].id == id && t.removals[i].stage.Testing? && id in t.store
             && id !in t.uploads
    ensures AboutToRemove(RunFrom(s, closed, sha), id, i)
  {
    var t := RunFrom(s, closed, sha);
    RunFromInv(s, closed, sha);
    assert RemovalOk(t, t.removals[i]);
    assert UploadOk(t, id, sha);
  }

  // ---- A resume undoes a cancel -------------------------------------------------------------

  /** A record that a resume request fits, with its file, that nobody is using. */
  ghost predicate ReadyToResume(s: State, id: Id, req: OpenRequest, sha: Sha) {
    && Inv(s, sha) && Idles(s, id) && id in s.hist.made && s.hist.made[id].temp in s.names
    && req.target == s.store[id].path && req.size == s.store[id].size
  }

  predicate OnlyOpens(s: State, t: State) {
    t.store == s.store && t.uploads == s.uploads && t.names == s.names && t.removals == s.removals
  }

  lemma ResumeBegins(s: State, id: Id, req: OpenRequest, sha: Sha)
    requires Idles(s, id) && id in s.hist.made && 0 <= req.size
    ensures var t := Step(s, Resume(id, req), sha);
            OnlyOpens(s, t) && id in t.opens && t.opens[id] == Looking(req) && t.hist.made == s.hist.made
  {
    assert NewInfo(s.hist.made[id], ChangeOf(s, Resume(id, req), sha)) == s.hist.made[id];
  }

  lemma ResumeLooks(s: State, id: Id, req: OpenRequest, sha: Sha)
    requires id in s.opens && s.opens[id] == Looking(req) && id in s.store
    requires s.store[id].path == req.target && s.store[id].size == req.size
    ensures var t := Step(s, OpenNext(id, true), sha);
            && OnlyOpens(s, t) && id in t.opens && t.opens[id] == Validating(s.store[id], req)
            && t.hist.made.Keys == s.hist.made.Keys
  {
  }

  lemma CancelBegins(s: State, id: Id, sha: Sha)
    requires id !in s.uploads
    ensures var t := Step(s, CancelToken(id), sha);
            && t.store == s.store && t.uploads == s.uploads && t.names == s.names && t.opens == s.opens
            && t.removals == s.removals + [Removal(id, LookingUp)]
  {
  }

  /** An open past its store lookup, and a cancel about to look. */
  function ResumeThenCancel(id: Id, req: OpenRequest): seq<Event> {
    [Resume(id, req)] + ([OpenNext(id, true)] + [OpenNext(id, true), CancelToken(id)])
  }

  lemma ResumeIsPolite(id: Id, req: OpenRequest)
    ensures AllPolite(ResumeThenCancel(id, req))
  {
  }

  lemma RecordNamesFile(s: State, id: Id, sha: Sha)
    requires Inv(s, sha) && id in s.store
    ensures id in s.hist.made && s.store[id].temp == s.hist.made[id].temp
  {
    assert UploadOk(s, id, sha);
  }

  lemma ResumeBegun(s: State, id: Id, req: OpenRequest, sha: Sha)
    requires ReadyToResume(s, id, req, sha)
    ensures var t := Step(s, Resume(id, req), sha);
            && Inv(t, sha) && OnlyOpens(s, t) && id in t.opens && t.opens[id] == Looking(req)
            && t.store[id].temp in t.names
  {
    RecordNamesFile(s, id, sha);
    ResumeBegins(s, id, req, sha);
    StepInv(s, Resume(id, req), sha);
  }

  lemma BothUnderWay(s: State, id: Id, req: OpenRequest, sha: Sha)
    requires ReadyToResume(s, id, req, sha)
    ensures var t := RunFrom(s, ResumeThenCancel(id, req), sha);
            && t.store == s.store && t.uploads == s.uploads && id in t.opens && t.opens[id].Prepared?
            && t.removals == s.removals + [Removal(id, LookingUp)]
  {
    ResumeBegun(s, id, req, sha);
    RunCons(s, Resume(id, req), [OpenNext(id, true)] + [OpenNext(id, true), CancelToken(id)], sha);
    LookedThenCancelled(Step(s, Resume(id, req), sha), id, req, sha);
  }

  lemma LookedThenCancelled(s: State, id: Id, req: OpenRequest, sha: Sha)
    requires Inv(s, sha) && id in s.opens && s.opens[id] == Looking(req) && id in s.store
    requires s.store[id].path == req.target && s.store[id].size == req.size
    requires id !in s.uploads && s.store[id].temp in s.names
    ensures var t := RunFrom(s, [OpenNext(id, true)] + [OpenNext(id, true), CancelToken(id)], sha);
            && t.store == s.store && t.uploads == s.uploads && id in t.opens && t.opens[id].Prepared?
            && t.removals == s.removals + [Removal(id, LookingUp)]
  {
    var e := OpenNext(id, true);
    ResumeLooks(s, id, req, sha);
    StepInv(s, e, sha);
    var t := Step(s, e, sha);
    RunCons(s, e, [e, CancelToken(id)], sha);
    RunOf2(t, e, CancelToken(id), sha);
    ValidatedIsAttachable(t, id, sha);
    AttachableIsPrepared(t, id, sha);
    CancelBegins(Step(t, e, sha), id, sha);
  }

  lemma ResumeStores(s: State, id: Id, i: nat, sha: Sha)
    requires id in s.opens && s.opens[id].Prepared? && i < |s.removals|
    ensures var t := RunFrom(s, [OpenNext(id, true)], sha);
            id in t.store && id in t.saved && t.names == s.names && t.removals == s.removals
  {
    RunOf1(s, OpenNext(id, true), sha);
  }

  lemma RacingIsAboutToRemove(s: State, id: Id, i: nat, sha: Sha)
    requires Inv(s, sha) && i < |s.removals| && s.removals[i] == Removal(id, LookingUp) && id in s.store
    requires id !in s.uploads
    ensures AboutToRemove(s, id, i)
  {
    assert UploadOk(s, id, sha);
  }

  /**
   A cancel that comes between the lookup and the store update of a resume answers yes and removes file
   and record; the resume then stores the record again and goes on with a file that has no name.
   */
  lemma ResumeUndoesCancel(s: State, id: Id, req: OpenRequest, sha: Sha)
    requires ReadyToResume(s, id, req, sha)
    ensures var i, t := |s.removals|, RunFrom(s, ResumeThenCancel(id, req), sha);
            var cancelled := RunFrom(t, RemovalScript(i), sha);
            && i < |cancelled.removals| && cancelled.removals[i] == Removal(id, Answered(true))
            && id !in cancelled.store && id !in cancelled.saved
            && var r := RunFrom(cancelled, [OpenNext(id, true)], sha);
               id in r.store && id in r.saved && s.hist.made[id].temp !in r.names
  {
    var i, t := |s.removals|, RunFrom(s, ResumeThenCancel(id, req), sha);
    BothUnderWay(s, id, req, sha);
    ResumeIsPolite(id, req);
    RunFromInv(s, ResumeThenCancel(id, req), sha);
    RacingIsAboutToRemove(t, id, i, sha);
    TempStays(s, ResumeThenCancel(id, req), id, sha);
    RemovalRuns(t, id, i, sha);
    ResumeStores(RunFrom(t, RemovalScript(i), sha), id, i, sha);
  }

  lemma {:induction false} TempStays(s: State, events: seq<Event>, id: Id, sha: Sha)
    requires id in s.hist.made
    ensures var t := RunFrom(s, events, sha); id in t.hist.made && t.hist.made[id].temp == s.hist.made[id].temp
  {
    if events != [] {
      TempStays(s, events[..|events| - 1], id, sha);
      TempStaysStep(RunFrom(s, events[..|events| - 1], sha), events[|events| - 1], id, sha);
    }
  }

  lemma TempStaysStep(s: State, e: Event, id: Id, sha: Sha)
    requires id in s.hist.made
    ensures var t := Step(s, e, sha); id in t.hist.made && t.hist.made[id].temp == s.hist.made[id].temp
  {
    if Ordinary(e) && Possible(s, e) { TempKept(s, Subject(s, e), ChangeOf(s, e, sha), id); }
  }

  lemma TempKept(s: State, id: Id, c: Change, j: Id)
    requires j in s.hist.made
    ensures var t := Apply(s, id, c); j in t.hist.made && t.hist.made[j].temp == s.hist.made[j].temp
  {
  }

  // ---- All three are reachable --------------------------------------------------------------

  lemma OpenedIsInUse(req: OpenRequest, sha: Sha)
    requires FreshUpload(INITIAL, req) && !IsTempName(req.target)
    ensures Run(OpenScript(req), sha) == Opened(INITIAL, req) && Inv(Opened(INITIAL, req), sha)
    ensures InUse(Opened(INITIAL, req), 0)
  {
    CreateOpens(INITIAL, req, sha);
    RunInv(OpenScript(req), sha);
  }

  /** A first upload, opened and closed, can be resumed. */
  lemma ClosedFits(req: OpenRequest, sha: Sha)
    requires FreshUpload(INITIAL, req) && !IsTempName(req.target)
    ensures ReadyToResume(Run(OpenScript(req) + CloseScript(0, req.now), sha), req.newId, req, sha)
  {
    var s, events := Opened(INITIAL, req), OpenScript(req) + CloseScript(0, req.now);
    OpenedIsInUse(req, sha);
    RunConcat(INITIAL, OpenScript(req), CloseScript(0, req.now), sha);
    CloseRuns(s, 0, req.now, sha);
    CloseIsPolite(req.newId, 0, req.now, req.now);
    RunFromInv(s, CloseScript(0, req.now), sha);
    TempStays(s, CloseScript(0, req.now), req.newId, sha);
  }

  // ---- A cancel that removes nothing --------------------------------------------------------

  /** The first handle has its file open and nothing in it, and the target is free. */
  predicate Untried(s: State, req: OpenRequest) {
    && |s.handles| > 0 && req.target !in s.names
    && var u := s.handles[0];
       && u.path == req.target && u.size == req.size && u.offset == 0 && u.hashed == []
       && u.file.Some? && u.work.Idle? && u.temp in s.names
  }

  lemma CancelFinds(req: OpenRequest, sha: Sha)
    requires FreshUpload(INITIAL, req) && !IsTempName(req.target)
    ensures var t := Step(Opened(INITIAL, req), CancelToken(req.newId), sha);
            Cancelling(t, req.newId, 0, 0) && InUse(t, 0) && |t.handles| == |t.removals| == 1 && Untried(t, req)
  {
  }

  /** The guard is taken by the cancel's own turn, or by a Close that comes first. */
  function GuardEvent(abort: bool): Event {
    if abort then RemovalNext(0, true) else CloseHandle(0)
  }

  lemma GuardIsClaimed(s: State, id: Id, abort: bool, sha: Sha)
    requires Cancelling(s, id, 0, 0) && InUse(s, 0) && |s.handles| == |s.removals| == 1
    ensures Step(s, GuardEvent(abort), sha) == Apply(s, id, Claim(0, s.handles[0], abort))
  {
  }

  lemma GuardKeepsFile(s: State, id: Id, req: OpenRequest, abort: bool, sha: Sha)
    requires Cancelling(s, id, 0, 0) && InUse(s, 0) && |s.handles| == |s.removals| == 1 && Untried(s, req)
    ensures Untried(Step(s, GuardEvent(abort), sha), req)
  {
    GuardIsClaimed(s, id, abort, sha);
  }

  lemma GuardBegins(s: State, id: Id, abort: bool, sha: Sha)
    requires Inv(s, sha) && Cancelling(s, id, 0, 0) && InUse(s, 0) && |s.handles| == |s.removals| == 1
    ensures Course(Step(s, GuardEvent(abort), sha), id, 0, 0, Guard(abort, s.handles[0].temp in s.names), false)
  {
    ReachedIsFresh(s, id, 0, 0, sha);
    ClaimBegins(s, id, 0, 0, abort);
    GuardIsClaimed(s, id, abort, sha);
  }

  lemma CancelRun(req: OpenRequest, sha: Sha) returns (events: seq<Event>)
    requires FreshUpload(INITIAL, req) && !IsTempName(req.target)
    ensures AllPolite(events) && var s := Run(events, sha); Cancelling(s, req.newId, 0, 0)
    ensures var s := Run(events, sha); InUse(s, 0) && |s.handles| == |s.removals| == 1 && Untried(s, req)
  {
    CreateOpens(INITIAL, req, sha);
    RunSnoc(INITIAL, OpenScript(req), CancelToken(req.newId), sha);
    CancelFinds(req, sha);
    events := OpenScript(req) + [CancelToken(req.newId)];
  }

  lemma GuardedRun(req: OpenRequest, abort: bool, sha: Sha) returns (events: seq<Event>)
    requires FreshUpload(INITIAL, req) && !IsTempName(req.target)
    ensures AllPolite(events) && Course(Run(events, sha), req.newId, 0, 0, Guard(abort, true), false)
    ensures Untried(Run(events, sha), req)
  {
    var start := CancelRun(req, sha);
    GuardBegins(Run(start, sha), req.newId, abort, sha) by { RunInv(start, sha); }
    GuardKeepsFile(Run(start, sha), req.newId, req, abort, sha);
    RunSnoc(INITIAL, start, GuardEvent(abort), sha);
    events := start + [GuardEvent(abort)];
  }

  /** Cancel 0 has answered yes. */
  predicate SaysYes(s: State, id: Id) {
    |s.removals| > 0 && s.removals[0] == Removal(id, Answered(true))
  }

  lemma AnsweredRun(before: seq<Event>, id: Id, k: Guard, finish: bool, sha: Sha) returns (events: seq<Event>)
    requires AllPolite(before) && Course(Run(before, sha), id, 0, 0, k, finish)
    ensures AllPolite(events)
    ensures var r := Run(events, sha); SaysYes(r, id) && AnswerMeans(r, id, 0, k.abort, finish && k.named)
  {
    events := CancelCanAnswer(before, id, 0, 0, k, finish, sha);
    CourseAnswer(Run(events, sha), id, 0, 0, k, finish);
  }

  /** A cancel that finds a first upload active, but a Close takes the guard first: it answers yes, the record stays. */
  lemma CancelAnswersYesAndKeepsRecord(req: OpenRequest, sha: Sha) returns (events: seq<Event>)
    requires FreshUpload(INITIAL, req) && !IsTempName(req.target)
    ensures AllPolite(events)
    ensures var r := Run(events, sha); SaysYes(r, req.newId) && req.newId in r.store
  {
    var start := GuardedRun(req, false, sha);
    events := AnsweredRun(start, req.newId, Guard(false, true), false, sha);
  }

  // ---- A cancel of an upload that is published meanwhile ------------------------------------

  lemma FinishDuringCancel(s: State, id: Id, k: Guard, size: int, digest: Digest, sha: Sha)
    requires Inv(s, sha) && Course(s, id, 0, 0, k, false) && AcceptsFinish(s, FinishFrame(0, size, digest), 0, sha)
    ensures Course(Step(s, FinishFrame(0, size, digest), sha), id, 0, 0, k, true)
  {
    CourseByIt(s, FinishFrame(0, size, digest), id, 0, k, false, sha);
  }

  lemma FinishedRun(req: OpenRequest, abort: bool, sha: Sha) returns (events: seq<Event>)
    requires FreshUpload(INITIAL, req) && !IsTempName(req.target) && req.size == 0
    ensures AllPolite(events) && Course(Run(events, sha), req.newId, 0, 0, Guard(abort, true), true)
  {
    var start := GuardedRun(req, abort, sha);
    var e := FinishFrame(0, 0, sha([]));
    FinishDuringCancel(Run(start, sha), req.newId, Guard(abort, true), 0, sha([]), sha) by { RunInv(start, sha); }
    RunSnoc(INITIAL, start, e, sha);
    events := start + [e];
  }

  /**
   The same with a finish frame after the guard is taken, for an empty file: the cancel answers yes and the upload
   is published. The record is gone even if it was a Close that took the guard.
   */
  lemma CancelAnswersYesAndPublishes(req: OpenRequest, abort: bool, sha: Sha) returns (events: seq<Event>)
    requires FreshUpload(INITIAL, req) && !IsTempName(req.target) && req.size == 0
    ensures AllPolite(events)
    ensures var r := Run(events, sha); SaysYes(r, req.newId) && Published(r, req.newId) && req.newId !in r.store
  {
    var start := FinishedRun(req, abort, sha);
    events := AnsweredRun(start, req.newId, Guard(abort, true), true, sha);
  }
}
