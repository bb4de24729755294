/** When a closed upload waits for its resume, over any run that leaves it alone and over crashes. */
module UploadWaits {
  import opened Prelude
  import opened UploadState
  import opened UploadMachine
  import opened UploadInvariant
  import opened UploadRuns
  import opened UploadNamed

  /** The record is stored as `rec` and the temporary file has its name. */
  predicate Waits(s: State, id: Id, rec: Record) {
    id in s.hist.made && s.hist.made[id].temp in s.names && id in s.store && s.store[id] == rec
  }

  /** Nobody is asked to resume, cancel or expire the upload; `rec` says when it expires. */
  predicate Leaves(e: Event, id: Id, rec: Record) {
    && !(e.Resume? && e.id == id) && !(e.CancelToken? && e.id == id)
    && !(e.SeeExpired? && e.id == id && rec.expiresAt <= e.now)
  }

  predicate AllLeave(events: seq<Event>, id: Id, rec: Record) {
    forall i :: 0 <= i < |events| ==> Polite(events[i]) && Leaves(events[i], id, rec)
  }

  predicate Idles(s: State, id: Id) {
    id in s.store && id !in s.uploads && id !in s.opens
  }

  /** No removal of the upload is under way, not even one that still has to look at the table. */
  ghost predicate Undisturbed(s: State, id: Id) {
    NonePending(s, id) && forall i :: 0 <= i < |s.removals| && s.removals[i].id == id ==> !s.removals[i].stage.Testing?
  }

  ghost predicate Lasting(s: State, id: Id, rec: Record) {
    Idles(s, id) && Waits(s, id, rec) && id in s.saved && s.saved[id] == rec && Undisturbed(s, id)
  }

  // ---- A lasting record lasts ---------------------------------------------------------------

  /** Nothing happens but perhaps an answer. */
  predicate Inert(c: Change) {
    && c == NOTHING.(removal := c.removal, begin := c.begin)
    && (c.removal.Some? ==> c.removal.value.stage.Answered?) && (c.begin.Some? ==> c.begin.value.Answered?)
  }

  lemma LastingByInert(s: State, id: Id, rec: Record, c: Change)
    requires Lasting(s, id, rec) && Inert(c)
    ensures Lasting(Apply(s, id, c), id, rec)
  {
  }

  /** A handle of an upload that waits has ended. */
  lemma HandleIsOver(s: State, id: Id, h: nat, sha: Sha)
    requires id in s.hist.made && UploadOk(s, id, sha) && id !in s.uploads && s.hist.made[id].temp in s.names
    requires h < |s.handles| && s.handles[h].id == id && !Aborts(s.handles[h])
    ensures HasEnded(s, h) && s.handles[h].file.None? && s.handles[h].work.Idle?
  {
    assert HandleOk(s.handles[h], s.hist.made[id], Listed(s, h), s.hist.made[id].temp in s.names, sha);
  }

  lemma OverIsInert(s: State, e: Event, sha: Sha)
    requires OfHandle(e) && Possible(s, e) && HasEnded(s, e.h) && s.handles[e.h].file.None? && s.handles[e.h].work.Idle?
    ensures HandleChange(s, e, sha) == NOTHING
  {
  }

  lemma AbortIsOver(s: State, id: Id, rec: Record, i: nat, sha: Sha)
    requires Inv(s, sha) && Lasting(s, id, rec) && i < |s.removals| && s.removals[i].id == id
    requires s.removals[i].stage.Aborting?
    ensures HasEnded(s, s.removals[i].stage.h)
  {
    assert RemovalOk(s, s.removals[i]);
    assert UploadOk(s, id, sha);
    HandleIsOver(s, id, s.removals[i].stage.h, sha);
  }

  lemma OtherIsInert(s: State, e: Event, id: Id, rec: Record, sha: Sha)
    requires Lasting(s, id, rec) && Ordinary(e) && Possible(s, e) && !OfHandle(e) && Subject(s, e) == id
    requires Leaves(e, id, rec)
    requires e.RemovalNext? && s.removals[e.i].stage.Aborting? ==> HasEnded(s, s.removals[e.i].stage.h)
    ensures Inert(ChangeOf(s, e, sha))
  {
  }

  lemma HandleIsInert(s: State, e: Event, id: Id, rec: Record, sha: Sha)
    requires OfHandle(e) && Possible(s, e) && s.handles[e.h].id == id && Lasting(s, id, rec) && UploadOk(s, id, sha)
    ensures HandleChange(s, e, sha) == NOTHING
  {
    HandleIsOver(s, id, e.h, sha);
    OverIsInert(s, e, sha);
  }

  lemma OwnIsInert(s: State, e: Event, id: Id, rec: Record, sha: Sha)
    requires Inv(s, sha) && Lasting(s, id, rec) && Ordinary(e) && Possible(s, e) && Subject(s, e) == id
    requires Leaves(e, id, rec)
    ensures Inert(ChangeOf(s, e, sha))
  {
    if OfHandle(e) {
      assert UploadOk(s, id, sha);
      HandleIsInert(s, e, id, rec, sha);
    } else {
      if e.RemovalNext? && s.removals[e.i].stage.Aborting? { AbortIsOver(s, id, rec, e.i, sha); }
      OtherIsInert(s, e, id, rec, sha);
    }
  }

  lemma LastingByOwn(s: State, e: Event, id: Id, rec: Record, sha: Sha)
    requires Inv(s, sha) && Lasting(s, id, rec) && Ordinary(e) && Possible(s, e) && Subject(s, e) == id
    requires Leaves(e, id, rec)
    ensures Lasting(Step(s, e, sha), id, rec)
  {
    OwnIsInert(s, e, id, rec, sha);
    LastingByInert(s, id, rec, ChangeOf(s, e, sha));
  }

  lemma LastingByOthers(s: State, t: State, id: Id, rec: Record)
    requires id in s.hist.made && Lasting(s, id, rec) && Aloof(s, t, id)
    ensures Lasting(t, id, rec)
  {
  }

  lemma LastingByCrash(s: State, id: Id, rec: Record, sha: Sha)
    requires Lasting(s, id, rec)
    ensures Lasting(Step(s, Crash, sha), id, rec)
  {
  }

  lemma LastingStep(s: State, e: Event, id: Id, rec: Record, sha: Sha)
    requires Inv(s, sha) && Lasting(s, id, rec) && Polite(e) && Leaves(e, id, rec)
    ensures Lasting(Step(s, e, sha), id, rec)
  {
    if e.Crash? {
      LastingByCrash(s, id, rec, sha);
    } else if Touches(s, e, id) {
      LastingByOwn(s, e, id, rec, sha);
    } else {
      AloofStep(s, e, id, sha);
      LastingByOthers(s, Step(s, e, sha), id, rec);
    }
  }

  lemma {:induction false} LastingRun(s: State, events: seq<Event>, id: Id, rec: Record, sha: Sha)
    requires Inv(s, sha) && Lasting(s, id, rec) && AllLeave(events, id, rec)
    ensures Lasting(RunFrom(s, events, sha), id, rec)
  {
    if events != [] {
      var front := events[..|events| - 1];
      LastingRun(s, front, id, rec, sha);
      RunFromInv(s, front, sha);
      LastingStep(RunFrom(s, front, sha), events[|events| - 1], id, rec, sha);
    }
  }

  // ---- Any other is lost --------------------------------------------------------------------

  lemma UnlinkLoses(s: State, id: Id, rec: Record, c: Change)
    requires id in s.hist.made && c.rename.None? && (c.op.Erase? || c.unlink == Some(s.hist.made[id].temp))
    ensures !Waits(Apply(s, id, c), id, rec)
  {
  }

  lemma RemovalLoses(s: State, id: Id, rec: Record, i: nat, sha: Sha)
    requires id in s.hist.made && i < |s.removals| && s.removals[i].id == id && RemovalOk(s, s.removals[i])
    requires s.removals[i].stage.Unlinking? || s.removals[i].stage.Erasing?
    ensures !Waits(Step(s, RemovalNext(i, true), sha), id, rec)
  {
    UnlinkLoses(s, id, rec, Remove(s, i, true));
  }

  lemma RemovalMovesOn(s: State, id: Id, i: nat, sha: Sha)
    requires i < |s.removals| && s.removals[i].id == id && Idles(s, id)
    requires s.removals[i].stage.Testing? || s.removals[i].stage.LookingUp?
    ensures var t := Step(s, RemovalNext(i, true), sha);
            i < |t.removals| && t.removals[i].id == id && t.removals[i].stage.Unlinking?
  {
  }

  lemma TwoStepsLose(s: State, id: Id, rec: Record, i: nat, sha: Sha)
    requires Inv(s, sha) && id in s.hist.made && Idles(s, id)
    requires i < |s.removals| && s.removals[i].id == id
    requires s.removals[i].stage.Testing? || s.removals[i].stage.LookingUp?
    ensures var e := RemovalNext(i, true); !Waits(Step(Step(s, e, sha), e, sha), id, rec)
  {
    var t := Step(s, RemovalNext(i, true), sha);
    RemovalMovesOn(s, id, i, sha);
    StepInv(s, RemovalNext(i, true), sha);
    MadeStays(s, RemovalNext(i, true), sha);
    assert RemovalOk(t, t.removals[i]);
    RemovalLoses(t, id, rec, i, sha);
  }

  lemma RemovalLosesAtOnce(s: State, id: Id, rec: Record, i: nat, sha: Sha)
    requires RemovalsOk(s) && id in s.hist.made && Idles(s, id)
    requires i < |s.removals| && s.removals[i].id == id
    requires s.removals[i].stage.Unlinking? || s.removals[i].stage.Erasing?
    ensures !Waits(RunFrom(s, [RemovalNext(i, true)], sha), id, rec)
  {
    RunOf1(s, RemovalNext(i, true), sha);
    assert RemovalOk(s, s.removals[i]);
    RemovalLoses(s, id, rec, i, sha);
  }

  lemma RemovalLosesInTwo(s: State, id: Id, rec: Record, i: nat, sha: Sha)
    requires Inv(s, sha) && id in s.hist.made && Idles(s, id)
    requires i < |s.removals| && s.removals[i].id == id
    requires s.removals[i].stage.Testing? || s.removals[i].stage.LookingUp?
    ensures !Waits(RunFrom(s, [RemovalNext(i, true), RemovalNext(i, true)], sha), id, rec)
  {
    RunOf2(s, RemovalNext(i, true), RemovalNext(i, true), sha);
    TwoStepsLose(s, id, rec, i, sha);
  }

  function LosingEvents(stage: RemovalStage, i: nat): seq<Event> {
    var e := RemovalNext(i, true);
    if stage.Testing? || stage.LookingUp? then [e, e] else [e]
  }

  lemma RemovalLosesBoth(s: State, id: Id, rec: Record, i: nat, sha: Sha)
    requires Inv(s, sha) && id in s.hist.made && Idles(s, id)
    requires i < |s.removals| && s.removals[i].id == id
    requires Removes(s.removals[i].stage) || s.removals[i].stage.Testing?
    ensures !Waits(RunFrom(s, LosingEvents(s.removals[i].stage, i), sha), id, rec)
  {
    if s.removals[i].stage.Testing? || s.removals[i].stage.LookingUp? {
      RemovalLosesInTwo(s, id, rec, i, sha);
    } else {
      RemovalLosesAtOnce(s, id, rec, i, sha);
    }
  }

  lemma RemovalLosesRun(s: State, id: Id, rec: Record, i: nat, sha: Sha) returns (events: seq<Event>)
    requires Inv(s, sha) && id in s.hist.made && Idles(s, id)
    requires i < |s.removals| && s.removals[i].id == id
    requires Removes(s.removals[i].stage) || s.removals[i].stage.Testing?
    ensures AllLeave(events, id, rec) && !Waits(RunFrom(s, events, sha), id, rec)
  {
    events := LosingEvents(s.removals[i].stage, i);
    RemovalLosesBoth(s, id, rec, i, sha);
  }

  lemma AbortLoses(s: State, id: Id, rec: Record, g: nat, sha: Sha)
    requires Inv(s, sha) && g < |s.handles| && s.handles[g].id == id && Aborts(s.handles[g])
    ensures !Waits(Step(s, StopNext(g, 0, true), sha), id, rec)
  {
    assert UploadOk(s, id, sha);
    assert HandleOk(s.handles[g], s.hist.made[id], Listed(s, g), s.hist.made[id].temp in s.names, sha);
    UnlinkLoses(s, id, rec, HandleChange(s, StopNext(g, 0, true), sha));
  }

  lemma CrashLoses(s: State, id: Id, rec: Record, sha: Sha) returns (events: seq<Event>)
    requires !(id in s.saved && s.saved[id] == rec)
    ensures AllLeave(events, id, rec) && !Waits(RunFrom(s, events, sha), id, rec)
  {
    events := [Crash];
    RunOf1(s, Crash, sha);
  }

  lemma AbortLosesRun(s: State, id: Id, rec: Record, g: nat, sha: Sha) returns (events: seq<Event>)
    requires Inv(s, sha) && g < |s.handles| && s.handles[g].id == id && Aborts(s.handles[g])
    ensures AllLeave(events, id, rec) && !Waits(RunFrom(s, events, sha), id, rec)
  {
    events := [StopNext(g, 0, true)];
    RunOf1(s, StopNext(g, 0, true), sha);
    AbortLoses(s, id, rec, g, sha);
  }

  /** What disturbs is a removal, or else an abort, under number `k`. */
  lemma Disturber(s: State, id: Id) returns (removal: bool, k: nat)
    requires !Undisturbed(s, id)
    ensures removal ==>
              && k < |s.removals| && s.removals[k].id == id
              && (Removes(s.removals[k].stage) || s.removals[k].stage.Testing?)
    ensures !removal ==> k < |s.handles| && s.handles[k].id == id && Aborts(s.handles[k])
  {
    if i :| && 0 <= i < |s.removals| && s.removals[i].id == id
            && (Removes(s.removals[i].stage) || s.removals[i].stage.Testing?)
    {
      removal, k := true, i;
    } else {
      var g :| 0 <= g < |s.handles| && s.handles[g].id == id && Aborts(s.handles[g]);
      removal, k := false, g;
    }
  }

  lemma DisturbedLoses(s: State, id: Id, rec: Record, sha: Sha) returns (events: seq<Event>)
    requires Inv(s, sha) && id in s.hist.made && Idles(s, id) && !Undisturbed(s, id)
    ensures AllLeave(events, id, rec) && !Waits(RunFrom(s, events, sha), id, rec)
  {
    var removal, k := Disturber(s, id);
    if removal {
      events := RemovalLosesRun(s, id, rec, k, sha);
    } else {
      events := AbortLosesRun(s, id, rec, k, sha);
    }
  }

  lemma LosesRun(s: State, id: Id, rec: Record, sha: Sha) returns (events: seq<Event>)
    requires Inv(s, sha) && id in s.hist.made && Idles(s, id) && !Lasting(s, id, rec)
    ensures AllLeave(events, id, rec) && !Waits(RunFrom(s, events, sha), id, rec)
  {
    if !Waits(s, id, rec) {
      events := [];
    } else if !(id in s.saved && s.saved[id] == rec) {
      events := CrashLoses(s, id, rec, sha);
    } else {
      events := DisturbedLoses(s, id, rec, sha);
    }
  }

  /**
   A record that no handle and no open is using stays as it is, with its file, in every continuation that
   does not ask for the upload before it expires, crashes included, if and only if the file has its name,
   the record is saved as it is, and no cancel, expiry or abort of the upload is still under way.
   */
  lemma ClosedUploadWaitsIff(before: seq<Event>, id: Id, sha: Sha)
    requires AllPolite(before) && Idles(Run(before, sha), id)
    ensures var s := Run(before, sha);
            var rec := s.store[id];
            && id in s.hist.made
            && ((forall after :: AllLeave(after, id, rec) ==> Waits(RunFrom(s, after, sha), id, rec)) <==>
                  s.hist.made[id].temp in s.names && id in s.saved && s.saved[id] == rec && Undisturbed(s, id))
  {
    var s := Run(before, sha);
    var rec := s.store[id];
    RunInv(before, sha);
    if Lasting(s, id, rec) {
      forall after | AllLeave(after, id, rec)
        ensures Waits(RunFrom(s, after, sha), id, rec)
      {
        LastingRun(s, after, id, rec, sha);
      }
    } else {
      var after := LosesRun(s, id, rec, sha);
    }
  }

  /** The last two steps of a Close, when its save succeeds, leave such a record: stored, saved and off the table. */
  lemma CloseSavesAndLetsGo(s: State, h: nat, now: int, later: int, sha: Sha)
    requires h < |s.handles| && s.handles[h].closing.Stopping?
    requires s.handles[h].closing.stage.Saving? && Listed(s, h) && !s.handles[h].closing.abort
    ensures var u := s.handles[h];
            var t := Step(Step(s, StopNext(h, now, true), sha), StopNext(h, later, true), sha);
            && HasEnded(t, h) && u.id !in t.uploads && u.id in t.store && t.store[u.id] == u.closing.stage.rec
            && t.saved == t.store
  {
    CloseSaves(s, h, now, sha);
    CloseLetsGo(Step(s, StopNext(h, now, true), sha), h, later, sha);
  }

  lemma CloseSaves(s: State, h: nat, now: int, sha: Sha)
    requires h < |s.handles| && s.handles[h].closing.Stopping? && s.handles[h].closing.stage.Saving?
    ensures var u, t := s.handles[h], Step(s, StopNext(h, now, true), sha);
            && t.uploads == s.uploads && u.id in t.store && t.store[u.id] == u.closing.stage.rec && t.saved == t.store
            && h < |t.handles| && t.handles[h] == u.(closing := Stopping(u.closing.abort, Unlisting))
  {
  }

  lemma CloseLetsGo(s: State, h: nat, now: int, sha: Sha)
    requires h < |s.handles| && s.handles[h].closing == Stopping(false, Unlisting) && Listed(s, h)
    ensures var u, t := s.handles[h], Step(s, StopNext(h, now, true), sha);
            HasEnded(t, h) && u.id !in t.uploads && t.store == s.store && t.saved == s.saved
  {
  }
}
