/** An upload whose temporary file has lost its name is never published, whatever becomes of its record. */
module UploadUnlinked {
  import opened Prelude
  import opened UploadState
  import opened UploadMachine
  import opened UploadInvariant
  import opened UploadRuns

  predicate Nameless(s: State, id: Id) {
    id in s.hist.made && s.hist.made[id].temp !in s.names
  }

  /** Every publication of the upload in `t` was already there in `s`. */
  ghost predicate NonePublished(s: State, t: State, id: Id) {
    forall i :: 0 <= i < |t.hist.published| && t.hist.published[i].id == id ==>
      i < |s.hist.published| && t.hist.published[i] == s.hist.published[i]
  }

  // ---- One step -----------------------------------------------------------------------------

  /** Without its name no step of the upload renames anything. */
  lemma NothingToRename(s: State, e: Event, id: Id, sha: Sha)
    requires Nameless(s, id) && UploadOk(s, id, sha) && Ordinary(e) && Possible(s, e) && Subject(s, e) == id
    ensures ChangeOf(s, e, sha).rename.None? && ChangeOf(s, e, sha).published.None?
  {
    if OfHandle(e) {
      assert HandleOk(s.handles[e.h], s.hist.made[id], Listed(s, e.h), s.hist.made[id].temp in s.names, sha);
    }
  }

  lemma NamelessByChange(s: State, id: Id, c: Change)
    requires Nameless(s, id) && c.rename.None? && c.published.None?
    ensures Nameless(Apply(s, id, c), id) && NonePublished(s, Apply(s, id, c), id)
  {
  }

  lemma NamelessByOthers(s: State, t: State, id: Id)
    requires Nameless(s, id) && Untouched(s, t, id)
    ensures Nameless(t, id) && NonePublished(s, t, id)
  {
  }

  lemma NamelessByCrash(s: State, id: Id, sha: Sha)
    requires Nameless(s, id)
    ensures Nameless(Step(s, Crash, sha), id) && NonePublished(s, Step(s, Crash, sha), id)
  {
  }

  lemma NamelessByOwn(s: State, e: Event, id: Id, sha: Sha)
    requires Nameless(s, id) && UploadOk(s, id, sha) && Ordinary(e) && Possible(s, e) && Subject(s, e) == id
    ensures Nameless(Step(s, e, sha), id) && NonePublished(s, Step(s, e, sha), id)
  {
    NothingToRename(s, e, id, sha);
    NamelessByChange(s, id, ChangeOf(s, e, sha));
  }

  lemma NamelessStep(s: State, e: Event, id: Id, sha: Sha)
    requires Inv(s, sha) && Nameless(s, id) && Polite(e)
    ensures Nameless(Step(s, e, sha), id) && NonePublished(s, Step(s, e, sha), id)
  {
    if e.Crash? {
      NamelessByCrash(s, id, sha);
    } else if Touches(s, e, id) {
      NamelessByOwn(s, e, id, sha);
    } else {
      AloofStep(s, e, id, sha);
      NamelessByOthers(s, Step(s, e, sha), id);
    }
  }

  // ---- Every run ----------------------------------------------------------------------------

  lemma {:induction false} NamelessRun(s: State, events: seq<Event>, id: Id, sha: Sha)
    requires Inv(s, sha) && Nameless(s, id) && AllPolite(events)
    ensures Nameless(RunFrom(s, events, sha), id) && NonePublished(s, RunFrom(s, events, sha), id)
  {
    if events != [] {
      var front := events[..|events| - 1];
      NamelessRun(s, front, id, sha);
      RunFromInv(s, front, sha);
      NamelessStep(RunFrom(s, front, sha), events[|events| - 1], id, sha);
    }
  }

  /**
   Once the temporary name of an upload is gone it stays gone, and the upload is not published any more: no
   frame, Close, retirement, persist, resume or restart brings either about, also if the record comes back.
   */
  lemma UnnamedIsNeverPublished(before: seq<Event>, after: seq<Event>, id: Id, sha: Sha)
    requires AllPolite(before) && AllPolite(after) && Nameless(Run(before, sha), id)
    ensures var s := Run(before, sha);
            Nameless(RunFrom(s, after, sha), id) && NonePublished(s, RunFrom(s, after, sha), id)
  {
    RunInv(before, sha);
    NamelessRun(Run(before, sha), after, id, sha);
  }

  /** The step of an abort, a cancel or an expiry pass that removes the temporary file of upload `id`. */
  predicate Unlinks(s: State, e: Event, id: Id) {
    Ordinary(e) && Possible(s, e) && Subject(s, e) == id && (
      || (e.RemovalNext? && s.removals[e.i].stage.Unlinking?)
      || (e.StopNext? && s.handles[e.h].closing.Stopping? && s.handles[e.h].closing.stage.Removing?))
  }

  lemma UnlinksTemp(s: State, e: Event, id: Id, sha: Sha)
    requires Inv(s, sha) && Unlinks(s, e, id)
    ensures id in s.hist.made
    ensures var c := ChangeOf(s, e, sha); c.unlink == Some(s.hist.made[id].temp) && c.rename.None? && c.published.None?
  {
    if e.StopNext? {
      assert UploadOk(s, id, sha);
      assert HandleOk(s.handles[e.h], s.hist.made[id], Listed(s, e.h), s.hist.made[id].temp in s.names, sha);
    } else {
      assert RemovalOk(s, s.removals[e.i]);
    }
  }

  lemma UnlinkedByChange(s: State, id: Id, c: Change)
    requires id in s.hist.made && c.unlink == Some(s.hist.made[id].temp) && c.rename.None? && c.published.None?
    ensures Nameless(Apply(s, id, c), id) && Apply(s, id, c).hist.published == s.hist.published
  {
  }

  lemma UnlinkTakesName(s: State, e: Event, id: Id, sha: Sha)
    requires Inv(s, sha) && Unlinks(s, e, id)
    ensures Nameless(Step(s, e, sha), id) && Step(s, e, sha).hist.published == s.hist.published
  {
    UnlinksTemp(s, e, id, sha);
    UnlinkedByChange(s, id, ChangeOf(s, e, sha));
  }

  /** So an aborted, cancelled or expired upload is not published after its file has been removed. */
  lemma RemovedIsNeverPublished(before: seq<Event>, e: Event, after: seq<Event>, id: Id, sha: Sha)
    requires AllPolite(before) && AllPolite(after) && Unlinks(Run(before, sha), e, id)
    ensures var s := Run(before, sha);
            var r := RunFrom(Step(s, e, sha), after, sha);
            Nameless(r, id) && NonePublished(s, r, id)
  {
    var s := Run(before, sha);
    RunInv(before, sha);
    UnlinkTakesName(s, e, id, sha);
    StepInv(s, e, sha);
    NamelessRun(Step(s, e, sha), after, id, sha);
  }
}
