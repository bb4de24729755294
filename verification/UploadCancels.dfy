/**
 What a cancel of an active upload has done when it answers: it removed the upload, unless a Close came
 first or the upload was finished while the cancel waited.
 */
module UploadCancels {
  import opened Prelude
  import opened UploadState
  import opened UploadMachine
  import opened UploadInvariant
  import opened UploadRuns
  import opened UploadWaits

  predicate AtMostAborting(stage: RemovalStage) {
    stage.Aborting? || stage.Answered?
  }

  /** Handle `h` is the only one of its upload in use, and no other removal can reach the record. */
  ghost predicate Alone(s: State, id: Id, h: nat) {
    && id in s.hist.made && id !in s.opens && h < |s.handles| && s.handles[h].id == id
    && (forall k :: 0 <= k < |s.removals| && s.removals[k].id == id ==> AtMostAborting(s.removals[k].stage))
    && (forall g :: 0 <= g < |s.handles| && g != h && s.handles[g].id == id ==> HasEnded(s, g))
  }

  ghost predicate Published(s: State, id: Id) {
    !Unpublished(s, id)
  }

  /** How the once-guard was taken: by an abort or not, and whether the temporary file had its name then. */
  datatype Guard = Guard(abort: bool, named: bool)

  /**
   A handle whose once-guard is taken. `finish` says whether a finish frame has been accepted since with
   the target free; `stored`, `named` and `published` how record, name and upload stand.
   */
  predicate Phase(u: Upload, k: Guard, finish: bool, stored: bool, named: bool, published: bool) {
    && u.closing.Stopping? && u.closing.abort == k.abort
    && if u.closing.stage.Waiting? then WaitPhase(u, k, finish, stored, named, published)
       else && u.work.Idle? && u.file.None? && published == (finish && k.named)
            && EndPhase(u.closing.stage, k.abort, stored, published)
  }

  /** The stop has let go of the file. */
  predicate EndPhase(stage: Stage, abort: bool, stored: bool, published: bool) {
    match stage
    case Waiting => true
    case Saving(_) => stored && !abort && !published
    case Unlisting => stored == !published
    case Removing => stored == !published && abort
    case Deleting => abort
    case Ended => stored == (!abort && !published)
  }

  /** The stop waits for the handle's lock while frames still come. */
  predicate WaitPhase(u: Upload, k: Guard, finish: bool, stored: bool, named: bool, published: bool) {
    && published == (finish && k.named && !u.work.Renaming?)
    && stored == (!published || u.work.Forgetting?)
    && named == (k.named && !published)
    && (u.file.Some? ==> !finish && (u.work.Idle? || u.work.Putting?))
    && (u.completed ==> published && u.work.Idle?)
    && match u.work
       case Idle => true
       case Putting(_) => u.file.Some?
       case Renaming(_) => finish
       case Forgetting => published
       case Answering => published
  }

  /** The cancel `i` waits for that handle, or has answered because it ended. */
  ghost predicate Course(s: State, id: Id, h: nat, i: nat, k: Guard, finish: bool) {
    && Alone(s, id, h)
    && s.handles[h].temp == s.hist.made[id].temp && s.handles[h].path != s.handles[h].temp
    && Phase(s.handles[h], k, finish, id in s.store, s.hist.made[id].temp in s.names, Published(s, id))
    && i < |s.removals| && s.removals[i].id == id
    && (s.removals[i].stage == Aborting(h) || (s.removals[i].stage == Answered(true) && HasEnded(s, h)))
  }

  /** Nobody asks for the upload again or crashes the process. Its client may go on sending frames. */
  predicate Quiet(e: Event, id: Id) {
    && Polite(e) && !e.Crash?
    && !(e.Resume? && e.id == id) && !(e.CancelToken? && e.id == id) && !(e.SeeExpired? && e.id == id)
  }

  predicate AllQuiet(events: seq<Event>, id: Id) {
    forall k :: 0 <= k < |events| ==> Quiet(events[k], id)
  }

  /** The event is a finish frame of handle `h` that passes all tests, with the target free or to be overwritten. */
  predicate AcceptsFinish(s: State, e: Event, h: nat, sha: Sha) {
    && e.FinishFrame? && e.h == h && h < |s.handles| && s.handles[h].work.Idle?
    && FinishAccepted(s.handles[h], e.size, e.digest, sha) && (s.handles[h].overwrite || s.handles[h].path !in s.names)
  }

  /** Some event of the run is such a frame. */
  ghost predicate Finishes(s: State, events: seq<Event>, h: nat, sha: Sha) {
    events != [] && (
      || Finishes(s, events[..|events| - 1], h, sha)
      || AcceptsFinish(RunFrom(s, events[..|events| - 1], sha), events[|events| - 1], h, sha))
  }

  // ---- The handle ---------------------------------------------------------------------------

  /** A change to the handle alone that goes on with its phase. */
  predicate Onward(h: nat, u: Upload, c: Change, k: Guard, finish: bool, stored: bool, named: bool, published: bool) {
    && c.listing.None? && c.slot.Same? && c.removal.None? && c.begin.None?
    && (c.handle.None? ==> c == NOTHING)
    && (c.rename.Some? ==> c.rename.value == Rename(u.temp, u.path))
    && (c.unlink.Some? ==> c.unlink.value == u.temp)
    && (c.published.Some? ==> c.published.value.id == u.id)
    && (c.handle.Some? ==>
          var v := c.handle.value.u;
          && c.handle.value.h == h && v.id == u.id && v.temp == u.temp && v.path == u.path
          && Phase(v, k, finish, StoredAfter(stored, c), named && c.rename.None? && c.unlink.None?,
                   published || c.published.Some?))
    && (c.handle.None? ==> Phase(u, k, finish, stored, named, published))
    && (u.closing.Stopping? && u.closing.stage.Ended? ==> c == NOTHING)
  }

  lemma FeedOnward(h: nat, u: Upload, content: seq<byte>, stored: Option<Record>, offset: int, raw: seq<byte>, now: int,
                   k: Guard, finish: bool, named: bool, published: bool)
    requires Phase(u, k, finish, stored.Some?, named, published)
    ensures Onward(h, u, Feed(h, u, content, stored, offset, raw, now), k, finish, stored.Some?, named, published)
  {
  }

  lemma FinishOnward(h: nat, u: Upload, taken: bool, size: int, digest: Digest, k: Guard,
                     finish: bool, stored: bool, named: bool, published: bool, sha: Sha)
    requires Phase(u, k, finish, stored, named, published)
    ensures var accepted := u.work.Idle? && FinishAccepted(u, size, digest, sha) && (u.overwrite || !taken);
            Onward(h, u, Finish(h, u, taken, size, digest, sha), k, finish || accepted, stored, named, published)
  {
  }

  lemma ProceedOnward(h: nat, u: Upload, content: Option<seq<byte>>, listed: bool, ok: bool, k: Guard,
                      finish: bool, stored: bool, published: bool)
    requires Phase(u, k, finish, stored, content.Some?, published)
    ensures Onward(h, u, Proceed(h, u, content, listed, ok), k, finish, stored, content.Some?, published)
  {
  }

  lemma StopOnward(h: nat, u: Upload, stored: Option<Record>, listed: bool, now: int, ok: bool, k: Guard,
                   finish: bool, named: bool, published: bool)
    requires Phase(u, k, finish, stored.Some?, named, published) && u.closing.stage.Waiting?
    ensures Onward(h, u, Stop(h, u, stored, listed, now, ok), k, finish, stored.Some?, named, published)
  {
  }

  /** The stage after `stage`, and what it does to the record. */
  lemma StageAfter(h: nat, u: Upload, stored: Option<Record>, listed: bool, now: int, ok: bool, k: Guard,
                   published: bool)
    requires u.closing.Stopping? && !u.closing.stage.Waiting? && !u.closing.stage.Ended? && u.closing.abort == k.abort
    requires EndPhase(u.closing.stage, k.abort, stored.Some?, published)
    ensures var c := Stop(h, u, stored, listed, now, ok);
            var stage := c.handle.value.u.closing.stage;
            && c == Staged(h, u, stage).(op := c.op, ok := c.ok, unlist := c.unlist, unlink := c.unlink)
            && !stage.Waiting? && (c.unlink.Some? ==> c.unlink.value == u.temp)
            && EndPhase(stage, k.abort, StoredAfter(stored.Some?, c), published)
  {
  }

  lemma StopEndsOnward(h: nat, u: Upload, stored: Option<Record>, listed: bool, now: int, ok: bool, k: Guard,
                       finish: bool, named: bool, published: bool)
    requires Phase(u, k, finish, stored.Some?, named, published) && !u.closing.stage.Waiting?
    ensures Onward(h, u, Stop(h, u, stored, listed, now, ok), k, finish, stored.Some?, named, published)
  {
    if !u.closing.stage.Ended? { StageAfter(h, u, stored, listed, now, ok, k, published); }
  }

  lemma HandleOnward(s: State, e: Event, k: Guard, finish: bool, published: bool, sha: Sha)
    requires OfHandle(e) && Possible(s, e) && (forall p :: p in s.names ==> s.names[p] in s.inodes)
    requires var u := s.handles[e.h]; Phase(u, k, finish, u.id in s.store, u.temp in s.names, published)
    ensures var u := s.handles[e.h];
            Onward(e.h, u, HandleChange(s, e, sha), k, finish || AcceptsFinish(s, e, e.h, sha),
                   u.id in s.store, u.temp in s.names, published)
  {
    var h, u := e.h, s.handles[e.h];
    var stored, named := Get(s.store, u.id), u.temp in s.names;
    match e
    case DataFrame(_, offset, raw, now) =>
      var content := if u.file.Some? && u.file.value in s.inodes then s.inodes[u.file.value] else [];
      FeedOnward(h, u, content, stored, offset, raw, now, k, finish, named, published);
    case FinishFrame(_, size, digest) =>
      FinishOnward(h, u, u.path in s.names, size, digest, k, finish, stored.Some?, named, published, sha);
    case WorkNext(_, ok) =>
      ProceedOnward(h, u, Content(s, u.temp), Listed(s, h), ok, k, finish, stored.Some?, published);
    case CloseHandle(_) =>
    case StopNext(_, now, ok) =>
      if u.closing.stage.Waiting? {
        StopOnward(h, u, stored, Listed(s, h), now, ok, k, finish, named, published);
      } else {
        StopEndsOnward(h, u, stored, Listed(s, h), now, ok, k, finish, named, published);
      }
  }

  lemma PublishedAfter(s: State, id: Id, c: Change)
    requires c.published.Some? ==> c.published.value.id == id
    ensures Published(Apply(s, id, c), id) <==> Published(s, id) || c.published.Some?
  {
    var t := Apply(s, id, c);
    assert s.hist.published <= t.hist.published;
    if c.published.Some? { assert t.hist.published[|s.hist.published|].id == id; }
  }

  lemma CourseOnward(s: State, id: Id, h: nat, i: nat, k: Guard, before: bool, finish: bool, c: Change)
    requires Course(s, id, h, i, k, before)
    requires Onward(h, s.handles[h], c, k, finish, id in s.store, s.handles[h].temp in s.names, Published(s, id))
    ensures Course(Apply(s, id, c), id, h, i, k, finish)
  {
    PublishedAfter(s, id, c);
  }

  /** The other handles of the upload do nothing. */
  lemma EndedIsInert(s: State, e: Event, id: Id, sha: Sha)
    requires id in s.hist.made && UploadOk(s, id, sha) && OfHandle(e)
    requires Possible(s, e) && s.handles[e.h].id == id && HasEnded(s, e.h)
    ensures HandleChange(s, e, sha) == NOTHING
  {
    assert HandleOk(s.handles[e.h], s.hist.made[id], Listed(s, e.h), s.hist.made[id].temp in s.names, sha);
    OverIsInert(s, e, sha);
  }

  // ---- Cancels ------------------------------------------------------------------------------

  /** A cancel begins or answers; the handle it waits for decides when. */
  predicate Harmless(s: State, h: nat, c: Change) {
    && c == NOTHING.(removal := c.removal, begin := c.begin)
    && (c.begin.Some? ==> AtMostAborting(c.begin.value))
    && (c.removal.Some? ==>
          && c.removal.value.i < |s.removals| && c.removal.value.stage == Answered(true)
          && (s.removals[c.removal.value.i].stage == Aborting(h) ==> HasEnded(s, h)))
  }

  lemma CourseHarmless(s: State, id: Id, h: nat, i: nat, k: Guard, finish: bool, c: Change)
    requires Course(s, id, h, i, k, finish) && Harmless(s, h, c)
    ensures Course(Apply(s, id, c), id, h, i, k, finish)
  {
    PublishedAfter(s, id, c);
  }

  lemma OtherHarmless(s: State, e: Event, id: Id, h: nat, sha: Sha)
    requires Alone(s, id, h) && s.handles[h].closing.Stopping? && Quiet(e, id)
    requires Ordinary(e) && Possible(s, e) && !OfHandle(e) && Subject(s, e) == id
    requires e.RemovalNext? ==> RemovalOk(s, s.removals[e.i])
    ensures Harmless(s, h, ChangeOf(s, e, sha))
  {
  }

  // ---- Every quiet run ----------------------------------------------------------------------

  lemma CourseByIt(s: State, e: Event, id: Id, i: nat, k: Guard, finish: bool, sha: Sha)
    requires OfHandle(e) && Possible(s, e) && Course(s, id, e.h, i, k, finish)
    requires forall p :: p in s.names ==> s.names[p] in s.inodes
    ensures Course(Step(s, e, sha), id, e.h, i, k, finish || AcceptsFinish(s, e, e.h, sha))
  {
    HandleOnward(s, e, k, finish, Published(s, id), sha);
    CourseOnward(s, id, e.h, i, k, finish, finish || AcceptsFinish(s, e, e.h, sha), HandleChange(s, e, sha));
  }

  lemma CourseByEnded(s: State, e: Event, id: Id, h: nat, i: nat, k: Guard, finish: bool, sha: Sha)
    requires OfHandle(e) && Possible(s, e) && s.handles[e.h].id == id
    requires e.h != h && Course(s, id, h, i, k, finish) && UploadOk(s, id, sha)
    ensures Course(Step(s, e, sha), id, h, i, k, finish)
  {
    EndedIsInert(s, e, id, sha);
    CourseHarmless(s, id, h, i, k, finish, NOTHING);
  }

  lemma CourseByOther(s: State, e: Event, id: Id, h: nat, i: nat, k: Guard, finish: bool, sha: Sha)
    requires Course(s, id, h, i, k, finish) && RemovalsOk(s) && Quiet(e, id)
    requires Ordinary(e) && Possible(s, e) && !OfHandle(e) && Subject(s, e) == id
    ensures Course(Step(s, e, sha), id, h, i, k, finish)
  {
    if e.RemovalNext? { assert RemovalOk(s, s.removals[e.i]); }
    OtherHarmless(s, e, id, h, sha);
    CourseHarmless(s, id, h, i, k, finish, ChangeOf(s, e, sha));
  }

  /** What has been published stays published. */
  lemma PublishedStays(s: State, e: Event, sha: Sha)
    ensures s.hist.published <= Step(s, e, sha).hist.published
  {
  }

  lemma CourseByOthers(s: State, t: State, id: Id, h: nat, i: nat, k: Guard, finish: bool)
    requires Course(s, id, h, i, k, finish) && Aloof(s, t, id) && s.hist.published <= t.hist.published
    ensures Course(t, id, h, i, k, finish)
  {
    assert Published(t, id) <==> Published(s, id);
  }

  lemma CourseAside(s: State, e: Event, id: Id, h: nat, i: nat, k: Guard, finish: bool, sha: Sha)
    requires Inv(s, sha) && Course(s, id, h, i, k, finish) && Quiet(e, id) && !Touches(s, e, id)
    ensures Course(Step(s, e, sha), id, h, i, k, finish)
  {
    AloofStep(s, e, id, sha);
    PublishedStays(s, e, sha);
    CourseByOthers(s, Step(s, e, sha), id, h, i, k, finish);
  }

  lemma CourseByHandle(s: State, e: Event, id: Id, h: nat, i: nat, k: Guard, finish: bool, sha: Sha)
    requires Course(s, id, h, i, k, finish) && OfHandle(e) && Possible(s, e) && s.handles[e.h].id == id
    requires UploadOk(s, id, sha) && forall p :: p in s.names ==> s.names[p] in s.inodes
    ensures Course(Step(s, e, sha), id, h, i, k, finish || AcceptsFinish(s, e, h, sha))
  {
    if e.h == h {
      CourseByIt(s, e, id, i, k, finish, sha);
    } else {
      CourseByEnded(s, e, id, h, i, k, finish, sha);
    }
  }

  lemma AcceptedTouches(s: State, e: Event, id: Id, h: nat, sha: Sha)
    requires AcceptsFinish(s, e, h, sha) && s.handles[h].id == id
    ensures Touches(s, e, id)
  {
  }

  lemma CourseTouched(s: State, e: Event, id: Id, h: nat, i: nat, k: Guard, finish: bool, sha: Sha)
    requires Course(s, id, h, i, k, finish) && Quiet(e, id) && Touches(s, e, id)
    requires UploadOk(s, id, sha) && RemovalsOk(s) && forall p :: p in s.names ==> s.names[p] in s.inodes
    ensures Course(Step(s, e, sha), id, h, i, k, finish || AcceptsFinish(s, e, h, sha))
  {
    if OfHandle(e) {
      CourseByHandle(s, e, id, h, i, k, finish, sha);
    } else {
      CourseByOther(s, e, id, h, i, k, finish, sha);
    }
  }

  lemma CourseStep(s: State, e: Event, id: Id, h: nat, i: nat, k: Guard, finish: bool, sha: Sha)
    requires Inv(s, sha) && Course(s, id, h, i, k, finish) && Quiet(e, id)
    ensures Course(Step(s, e, sha), id, h, i, k, finish || AcceptsFinish(s, e, h, sha))
  {
    if Touches(s, e, id) {
      CourseTouched(s, e, id, h, i, k, finish, sha);
    } else {
      CourseAside(s, e, id, h, i, k, finish, sha);
      assert !AcceptsFinish(s, e, h, sha) by { if AcceptsFinish(s, e, h, sha) { AcceptedTouches(s, e, id, h, sha); } }
    }
  }

  lemma {:induction false} CourseRun(s: State, events: seq<Event>, id: Id, h: nat, i: nat, k: Guard, sha: Sha)
    requires Inv(s, sha) && Course(s, id, h, i, k, false) && AllQuiet(events, id)
    ensures Course(RunFrom(s, events, sha), id, h, i, k, Finishes(s, events, h, sha))
  {
    if events != [] {
      var front := events[..|events| - 1];
      CourseRun(s, front, id, h, i, k, sha);
      forall j | 0 <= j < |front| ensures Polite(front[j]) { assert Quiet(events[j], id); }
      RunFromInv(s, front, sha);
      CourseStep(RunFrom(s, front, sha), events[|events| - 1], id, h, i, k, Finishes(s, front, h, sha), sha);
    }
  }

  // ---- The cancel's turn --------------------------------------------------------------------

  /** A handle with its file open takes frames; its guard is free or was taken just now. */
  predicate Fresh(u: Upload) {
    && !u.completed && u.file.Some? && (u.work.Idle? || u.work.Putting?)
    && (u.closing.Running? || u.closing.stage.Waiting?)
  }

  /** A cancel `i` that has found upload `id` active, through the open handle `h`. */
  ghost predicate Cancelling(s: State, id: Id, h: nat, i: nat) {
    && Alone(s, id, h) && s.handles[h].file.Some? && id in s.store
    && i < |s.removals| && s.removals[i].id == id && s.removals[i].stage == Aborting(h)
  }

  lemma ReachedIsFresh(s: State, id: Id, h: nat, i: nat, sha: Sha)
    requires Inv(s, sha) && Cancelling(s, id, h, i)
    ensures Fresh(s.handles[h]) && Unpublished(s, id)
    ensures s.handles[h].temp == s.hist.made[id].temp && s.handles[h].path != s.handles[h].temp
  {
    var m := s.hist.made[id];
    assert UploadOk(s, id, sha);
    assert HandleOk(s.handles[h], m, Listed(s, h), m.temp in s.names, sha);
    WriterUnpublished(s, id, h, sha);
  }

  /** The guard of a handle after a claim: the first one counts. */
  function GuardOf(s: State, h: nat, abort: bool): Guard
    requires h < |s.handles|
  {
    var u := s.handles[h];
    Guard(if u.closing.Running? then abort else u.closing.abort, u.temp in s.names)
  }

  lemma ClaimIsWaiting(h: nat, u: Upload, abort: bool, named: bool)
    requires Fresh(u)
    ensures var c := Claim(h, u, abort);
            var v := if c.handle.Some? then c.handle.value.u else u;
            && c == NOTHING.(handle := c.handle) && (c.handle.Some? ==> c.handle.value.h == h)
            && v == u.(closing := v.closing)
            && Phase(v, Guard(if u.closing.Running? then abort else u.closing.abort, named), false, true, named, false)
  {
  }

  lemma ClaimBegins(s: State, id: Id, h: nat, i: nat, abort: bool)
    requires Cancelling(s, id, h, i) && Fresh(s.handles[h]) && Unpublished(s, id)
    requires s.handles[h].temp == s.hist.made[id].temp && s.handles[h].path != s.handles[h].temp
    ensures Course(Apply(s, id, Claim(h, s.handles[h], abort)), id, h, i, GuardOf(s, h, abort), false)
  {
    ClaimIsWaiting(h, s.handles[h], abort, s.handles[h].temp in s.names);
    PublishedAfter(s, id, Claim(h, s.handles[h], abort));
  }

  lemma CancelTurn(s: State, h: nat, i: nat, ok: bool, sha: Sha)
    requires h < |s.handles| && Fresh(s.handles[h]) && i < |s.removals| && s.removals[i].stage == Aborting(h)
    ensures Step(s, RemovalNext(i, ok), sha) == Apply(s, s.removals[i].id, Claim(h, s.handles[h], true))
  {
  }

  lemma TurnBegins(s: State, id: Id, h: nat, i: nat, ok: bool, sha: Sha)
    requires Inv(s, sha) && Cancelling(s, id, h, i)
    ensures var t := Step(s, RemovalNext(i, ok), sha); Inv(t, sha) && Course(t, id, h, i, GuardOf(s, h, true), false)
  {
    ReachedIsFresh(s, id, h, i, sha);
    ClaimBegins(s, id, h, i, true);
    CancelTurn(s, h, i, ok, sha);
    StepInv(s, RemovalNext(i, ok), sha);
  }

  lemma CancelCourse(s: State, id: Id, h: nat, i: nat, ok: bool, after: seq<Event>, sha: Sha)
    requires Inv(s, sha) && AllQuiet(after, id) && Cancelling(s, id, h, i)
    ensures var t := Step(s, RemovalNext(i, ok), sha);
            Course(RunFrom(t, after, sha), id, h, i, GuardOf(s, h, true), Finishes(t, after, h, sha))
  {
    TurnBegins(s, id, h, i, ok, sha);
    CourseRun(Step(s, RemovalNext(i, ok), sha), after, id, h, i, GuardOf(s, h, true), sha);
  }

  /** What the answer says and what it does not. */
  ghost predicate AnswerMeans(r: State, id: Id, i: nat, abort: bool, finished: bool) {
    && i < |r.removals|
    && (r.removals[i].stage.Answered? ==>
          && r.removals[i].stage.yes
          && (Published(r, id) <==> finished)
          && (id !in r.store <==> abort || finished))
  }

  lemma CourseAnswer(s: State, id: Id, h: nat, i: nat, k: Guard, finish: bool)
    requires Course(s, id, h, i, k, finish)
    ensures AnswerMeans(s, id, i, k.abort, finish && k.named)
  {
  }

  lemma CancelOutcome(s: State, id: Id, h: nat, i: nat, ok: bool, after: seq<Event>, sha: Sha)
    requires Inv(s, sha) && AllQuiet(after, id) && Cancelling(s, id, h, i)
    ensures var t := Step(s, RemovalNext(i, ok), sha);
            AnswerMeans(RunFrom(t, after, sha), id, i, GuardOf(s, h, true).abort,
                   Finishes(t, after, h, sha) && s.handles[h].temp in s.names)
  {
    var t := Step(s, RemovalNext(i, ok), sha);
    CancelCourse(s, id, h, i, ok, after, sha);
    CourseAnswer(RunFrom(t, after, sha), id, h, i, GuardOf(s, h, true), Finishes(t, after, h, sha));
  }

  /**
   A cancel has found the active upload and takes its turn at the once-guard of the open handle. Whenever it
   answers, in any run that leaves the upload to these two and its client, it answers yes; the upload is then
   published if and only if a finish frame was accepted meanwhile and the temporary file had its name; and the
   record is gone if and only if no Close had taken the guard before, or the upload is published.
   */
  lemma CancelRemovesIff(before: seq<Event>, id: Id, h: nat, i: nat, ok: bool, after: seq<Event>, sha: Sha)
    requires AllPolite(before) && AllQuiet(after, id) && Cancelling(Run(before, sha), id, h, i)
    ensures var s := Run(before, sha);
            var t := Step(s, RemovalNext(i, ok), sha);
            AnswerMeans(RunFrom(t, after, sha), id, i, s.handles[h].closing.Running? || s.handles[h].closing.abort,
                   Finishes(t, after, h, sha) && s.handles[h].temp in s.names)
  {
    var s := Run(before, sha);
    assert Inv(s, sha) by { RunInv(before, sha); }
    CancelOutcome(s, id, h, i, ok, after, sha);
  }

  // ---- It can always answer -----------------------------------------------------------------

  function Rank(u: Upload): nat {
    if u.closing.Running? then 9
    else match u.closing.stage
      case Waiting => 5 + WorkRank(u.work)
      case Saving(_) => 4
      case Unlisting => 3
      case Removing => 2
      case Deleting => 1
      case Ended => 0
  }

  function WorkRank(w: Work): nat {
    match w
    case Idle => 0
    case Putting(_) => 1
    case Renaming(_) => 3
    case Forgetting => 2
    case Answering => 1
  }

  function NextEvent(u: Upload, h: nat): Event {
    if u.work.Idle? then StopNext(h, 0, true) else WorkNext(h, true)
  }

  /** A change to handle `h` that lowers its rank. */
  predicate Lowers(h: nat, u: Upload, c: Change) {
    c.listing.None? && c.handle.Some? && c.handle.value.h == h && Rank(c.handle.value.u) < Rank(u)
  }

  lemma StopLowers(h: nat, u: Upload, stored: Option<Record>, listed: bool, now: int, ok: bool)
    requires u.closing.Stopping? && !u.closing.stage.Ended? && u.work.Idle?
    ensures Lowers(h, u, Stop(h, u, stored, listed, now, ok))
  {
  }

  lemma ProceedLowers(h: nat, u: Upload, content: Option<seq<byte>>, listed: bool, ok: bool)
    requires u.closing.Stopping? && u.closing.stage.Waiting? && !u.work.Idle?
    ensures Lowers(h, u, Proceed(h, u, content, listed, ok))
  {
  }

  lemma NextGoesOn(s: State, h: nat, sha: Sha)
    requires h < |s.handles| && s.handles[h].closing.Stopping? && !HasEnded(s, h)
    requires !s.handles[h].closing.stage.Waiting? ==> s.handles[h].work.Idle?
    ensures Lowers(h, s.handles[h], HandleChange(s, NextEvent(s.handles[h], h), sha))
  {
    var u := s.handles[h];
    if u.work.Idle? {
      StopLowers(h, u, Get(s.store, u.id), Listed(s, h), 0, true);
    } else {
      ProceedLowers(h, u, Content(s, u.temp), Listed(s, h), true);
    }
  }

  lemma NextLowers(s: State, h: nat, sha: Sha)
    requires h < |s.handles| && s.handles[h].closing.Stopping? && !HasEnded(s, h)
    requires !s.handles[h].closing.stage.Waiting? ==> s.handles[h].work.Idle?
    ensures var t := Step(s, NextEvent(s.handles[h], h), sha);
            h < |t.handles| && Rank(t.handles[h]) < Rank(s.handles[h])
  {
    NextGoesOn(s, h, sha);
  }

  lemma NextCourse(s: State, id: Id, h: nat, i: nat, k: Guard, finish: bool, sha: Sha)
    requires Inv(s, sha) && Course(s, id, h, i, k, finish) && !HasEnded(s, h)
    ensures Course(Step(s, NextEvent(s.handles[h], h), sha), id, h, i, k, finish)
  {
    CourseByIt(s, NextEvent(s.handles[h], h), id, i, k, finish, sha);
  }

  lemma NextStep(before: seq<Event>, id: Id, h: nat, i: nat, k: Guard, finish: bool, sha: Sha) returns (e: Event)
    requires AllPolite(before) && Course(Run(before, sha), id, h, i, k, finish) && !HasEnded(Run(before, sha), h)
    ensures Polite(e) && Course(Run(before + [e], sha), id, h, i, k, finish)
    ensures Rank(Run(before + [e], sha).handles[h]) < Rank(Run(before, sha).handles[h])
  {
    var s := Run(before, sha);
    e := NextEvent(s.handles[h], h);
    NextCourse(s, id, h, i, k, finish, sha) by { RunInv(before, sha); }
    NextLowers(s, h, sha);
    RunSnoc(INITIAL, before, e, sha);
  }

  /** The cancel `i` has answered yes, and the handle stands as it did when it ended. */
  ghost predicate Concluded(s: State, id: Id, h: nat, i: nat, k: Guard, finish: bool) {
    Course(s, id, h, i, k, finish) && s.removals[i].stage == Answered(true)
  }

  lemma EndedAnswers(s: State, id: Id, h: nat, i: nat, k: Guard, finish: bool, sha: Sha)
    requires Course(s, id, h, i, k, finish) && HasEnded(s, h) && RemovalsOk(s)
    ensures Concluded(Step(s, RemovalNext(i, true), sha), id, h, i, k, finish)
  {
    CourseByOther(s, RemovalNext(i, true), id, h, i, k, finish, sha);
  }

  /** Left to themselves, the handle ends and the cancel answers. */
  lemma {:induction false} CancelCanAnswer(before: seq<Event>, id: Id, h: nat, i: nat, k: Guard, finish: bool, sha: Sha)
    returns (events: seq<Event>)
    requires AllPolite(before) && Course(Run(before, sha), id, h, i, k, finish)
    ensures AllPolite(events) && before <= events && Concluded(Run(events, sha), id, h, i, k, finish)
    decreases Rank(Run(before, sha).handles[h])
  {
    if HasEnded(Run(before, sha), h) {
      events := before + [RemovalNext(i, true)];
      EndedAnswers(Run(before, sha), id, h, i, k, finish, sha) by { RunInv(before, sha); }
      RunSnoc(INITIAL, before, RemovalNext(i, true), sha);
    } else {
      var e := NextStep(before, id, h, i, k, finish, sha);
      events := CancelCanAnswer(before + [e], id, h, i, k, finish, sha);
    }
  }
}
