/** When an upload is gone for good. */
module UploadGone {
  import opened Prelude
  import opened UploadState
  import opened UploadMachine
  import opened UploadInvariant
  import opened UploadRuns
  import opened UploadUnlinked

  /** No record, no table entry, no open file. */
  ghost predicate Gone(s: State, id: Id) {
    && id !in s.store && id !in s.uploads
    && forall h :: 0 <= h < |s.handles| && s.handles[h].id == id ==> s.handles[h].file.None?
  }

  /** The same in `r`, and nothing of the upload has been published since `s`. */
  ghost predicate Over(s: State, r: State, id: Id) {
    Gone(r, id) && NonePublished(s, r, id)
  }

  /** An open has read the record and can still bring it back. */
  predicate Holding(s: State, id: Id) {
    && id in s.opens
    && (s.opens[id].Prepared? || s.opens[id].Stored? || (s.opens[id].Validating? && s.opens[id].rec.temp in s.names))
  }

  ghost predicate Settled(s: State, id: Id) {
    Gone(s, id) && id !in s.saved && !Holding(s, id)
  }

  // ---- Settled uploads stay settled ---------------------------------------------------------

  /** Nothing left to store through this handle. */
  predicate Spent(u: Upload) {
    u.file.None? && u.work.Idle? && (u.closing.Stopping? ==> !u.closing.stage.Saving?)
  }

  lemma UnlistedIsSpent(s: State, id: Id, h: nat, sha: Sha)
    requires id in s.hist.made && UploadOk(s, id, sha) && id !in s.uploads && h < |s.handles| && s.handles[h].id == id
    ensures Spent(s.handles[h])
  {
    assert HandleOk(s.handles[h], s.hist.made[id], Listed(s, h), s.hist.made[id].temp in s.names, sha);
  }

  /** Stores nothing, lists nothing, opens no file and does not let an open pass its store lookup. */
  predicate Mild(s: State, c: Change) {
    && !c.op.Write? && c.listing.None? && c.rename.None? && c.published.None?
    && (c.handle.Some? ==>
          && c.handle.value.h < |s.handles| && c.handle.value.u.id == s.handles[c.handle.value.h].id
          && (c.handle.value.u.file.Some? ==> s.handles[c.handle.value.h].file.Some?))
    && (c.slot.Filled? ==> c.slot.opening.Displacing? || c.slot.opening.Looking? || c.slot.opening.Discarding?)
  }

  lemma SettledByMild(s: State, id: Id, c: Change)
    requires Settled(s, id) && Mild(s, c)
    ensures Settled(Apply(s, id, c), id) && NonePublished(s, Apply(s, id, c), id)
  {
  }

  lemma SpentIsMild(s: State, e: Event, sha: Sha)
    requires OfHandle(e) && Possible(s, e) && Spent(s.handles[e.h]) && s.handles[e.h].id !in s.store
    ensures Mild(s, HandleChange(s, e, sha))
  {
  }

  lemma OtherIsMild(s: State, e: Event, id: Id, sha: Sha)
    requires Settled(s, id) && Ordinary(e) && Possible(s, e) && !OfHandle(e) && Subject(s, e) == id
    ensures Mild(s, ChangeOf(s, e, sha))
  {
  }

  lemma SettledByOwn(s: State, e: Event, id: Id, sha: Sha)
    requires Inv(s, sha) && id in s.hist.made && Settled(s, id) && Ordinary(e) && Possible(s, e) && Subject(s, e) == id
    ensures Settled(Step(s, e, sha), id) && NonePublished(s, Step(s, e, sha), id)
  {
    if OfHandle(e) {
      assert UploadOk(s, id, sha);
      UnlistedIsSpent(s, id, e.h, sha);
      SpentIsMild(s, e, sha);
    } else {
      OtherIsMild(s, e, id, sha);
    }
    SettledByMild(s, id, ChangeOf(s, e, sha));
  }

  lemma SettledByOthers(s: State, t: State, id: Id, sha: Sha)
    requires id in s.hist.made && UploadOk(s, id, sha) && Settled(s, id) && Untouched(s, t, id)
    ensures Settled(t, id) && NonePublished(s, t, id)
  {
  }

  lemma SettledByCrash(s: State, id: Id)
    requires Settled(s, id)
    ensures Settled(Reboot(s), id) && NonePublished(s, Reboot(s), id)
  {
  }

  lemma SettledStep(s: State, e: Event, id: Id, sha: Sha)
    requires Inv(s, sha) && id in s.hist.made && Settled(s, id) && Polite(e)
    ensures Settled(Step(s, e, sha), id) && NonePublished(s, Step(s, e, sha), id)
  {
    if e.Crash? {
      SettledByCrash(s, id);
    } else if Touches(s, e, id) {
      SettledByOwn(s, e, id, sha);
    } else {
      assert UploadOk(s, id, sha);
      AloofStep(s, e, id, sha);
      SettledByOthers(s, Step(s, e, sha), id, sha);
    }
  }

  lemma {:induction false} SettledRun(s: State, events: seq<Event>, id: Id, sha: Sha)
    requires Inv(s, sha) && id in s.hist.made && Settled(s, id) && AllPolite(events)
    ensures Settled(RunFrom(s, events, sha), id) && id in RunFrom(s, events, sha).hist.made
    ensures NonePublished(s, RunFrom(s, events, sha), id)
  {
    if events != [] {
      var front, e := events[..|events| - 1], events[|events| - 1];
      SettledRun(s, front, id, sha);
      RunFromInv(s, front, sha);
      SettledStep(RunFrom(s, front, sha), e, id, sha);
      MadeStays(RunFrom(s, front, sha), e, sha);
    }
  }

  // ---- The others can come back -------------------------------------------------------------

  /** Validation passes: the file is there and long enough. */
  predicate Attachable(s: State, rec: Record) {
    Content(s, rec.temp).Some? && rec.offset <= |Content(s, rec.temp).value|
  }

  lemma ValidatedIsAttachable(s: State, id: Id, sha: Sha)
    requires Inv(s, sha) && id in s.opens && s.opens[id].Validating? && s.opens[id].rec.temp in s.names
    ensures Attachable(s, s.opens[id].rec)
  {
    assert UploadOk(s, id, sha);
  }

  lemma AttachableIsPrepared(s: State, id: Id, sha: Sha)
    requires id in s.opens && s.opens[id].Validating? && Attachable(s, s.opens[id].rec)
    ensures var t := Step(s, OpenNext(id, true), sha);
            && id in t.opens && t.opens[id].Prepared?
            && t.store == s.store && t.uploads == s.uploads && t.names == s.names && t.removals == s.removals
  {
  }

  lemma PreparedComesBack(s: State, id: Id, sha: Sha)
    requires id in s.opens && (s.opens[id].Prepared? || (s.opens[id].Stored? && 0 <= s.opens[id].req.size))
    ensures var t := Step(s, OpenNext(id, true), sha); id in t.store || id in t.uploads
  {
  }

  lemma CrashBringsBack(s: State, id: Id, sha: Sha)
    requires id in s.saved
    ensures !Gone(Step(s, Crash, sha), id)
  {
  }

  lemma ValidatedComesBack(s: State, id: Id, sha: Sha)
    requires Inv(s, sha) && id in s.opens && s.opens[id].Validating? && s.opens[id].rec.temp in s.names
    ensures var e := OpenNext(id, true); !Gone(Step(Step(s, e, sha), e, sha), id)
  {
    ValidatedIsAttachable(s, id, sha);
    AttachableIsPrepared(s, id, sha);
    PreparedComesBack(Step(s, OpenNext(id, true), sha), id, sha);
  }

  lemma OpenedComesBack(s: State, id: Id, sha: Sha)
    requires Inv(s, sha) && id in s.opens && (s.opens[id].Prepared? || s.opens[id].Stored?)
    ensures !Gone(Step(s, OpenNext(id, true), sha), id)
  {
    assert UploadOk(s, id, sha);
    PreparedComesBack(s, id, sha);
  }

  lemma HeldComesBack(s: State, id: Id, sha: Sha) returns (events: seq<Event>)
    requires Inv(s, sha) && id in s.hist.made && Holding(s, id)
    ensures AllPolite(events) && !Gone(RunFrom(s, events, sha), id)
  {
    var e := OpenNext(id, true);
    if s.opens[id].Validating? {
      events := [e, e];
      RunOf2(s, e, e, sha);
      ValidatedComesBack(s, id, sha);
    } else {
      events := [e];
      RunOf1(s, e, sha);
      OpenedComesBack(s, id, sha);
    }
  }

  /** By a crash that finds an older saved store, or by the open that holds the record. */
  lemma ComesBack(s: State, id: Id, sha: Sha) returns (events: seq<Event>)
    requires Inv(s, sha) && id in s.hist.made && !Settled(s, id)
    ensures AllPolite(events) && !Gone(RunFrom(s, events, sha), id)
  {
    if !Gone(s, id) {
      events := [];
    } else if id in s.saved {
      events := [Crash];
      RunOf1(s, Crash, sha);
      CrashBringsBack(s, id, sha);
    } else {
      events := HeldComesBack(s, id, sha);
    }
  }

  /**
   An upload without record, table entry or open file stays so in every continuation, without being published,
   if and only if it is not in the saved store either and no open still holds its record.
   */
  lemma GoneForGoodIff(before: seq<Event>, id: Id, sha: Sha)
    requires AllPolite(before) && id in Run(before, sha).hist.made
    ensures var s := Run(before, sha);
            (forall after :: AllPolite(after) ==> Over(s, RunFrom(s, after, sha), id)) <==> Settled(s, id)
  {
    var s := Run(before, sha);
    RunInv(before, sha);
    if Settled(s, id) {
      forall after | AllPolite(after) ensures Over(s, RunFrom(s, after, sha), id) { SettledRun(s, after, id, sha); }
    } else {
      var after := ComesBack(s, id, sha);
    }
  }

  // ---- The last step of a removal -----------------------------------------------------------

  /** The step of an abort, cancel, expiry or failed validation that deletes the record, with the store saved. */
  predicate Deletes(s: State, e: Event, id: Id) {
    Ordinary(e) && Possible(s, e) && Subject(s, e) == id && (
      || (e.RemovalNext? && e.ok && s.removals[e.i].stage.Erasing?)
      || (e.StopNext? && e.ok && s.handles[e.h].closing.Stopping? && s.handles[e.h].closing.stage.Deleting?)
      || (e.OpenNext? && e.ok && s.opens[id].Discarding?))
  }

  lemma DeletesIt(s: State, e: Event, id: Id, sha: Sha)
    requires Deletes(s, e, id) && id in s.store
    ensures var t := Step(s, e, sha); id !in t.store && id !in t.saved
  {
  }

  lemma DeletesOnlyIt(s: State, e: Event, id: Id, sha: Sha)
    requires Deletes(s, e, id)
    ensures var t := Step(s, e, sha);
            && t.uploads == s.uploads && t.names == s.names && |t.handles| == |s.handles|
            && (Holding(t, id) <==> Holding(s, id))
  {
  }

  /** One more event of a run. */
  lemma AfterEvent(before: seq<Event>, e: Event, sha: Sha)
    requires AllPolite(before) && Polite(e)
    ensures AllPolite(before + [e]) && Run(before + [e], sha) == Step(Run(before, sha), e, sha)
    ensures Run(before, sha).hist.made.Keys <= Run(before + [e], sha).hist.made.Keys
  {
    RunSnoc(INITIAL, before, e, sha);
    MadeStays(Run(before, sha), e, sha);
  }

  /**
   The step that deletes the record, when it is saved, ends the upload for good, exactly if no handle is
   listed at that moment and no open is past its store lookup with the file still there.
   */
  lemma DeleteIsFinalIff(before: seq<Event>, e: Event, id: Id, sha: Sha)
    requires AllPolite(before) && var s := Run(before, sha); Deletes(s, e, id) && id in s.store
    ensures var s := Run(before, sha);
            var t := Step(s, e, sha);
            (forall after :: AllPolite(after) ==> Over(t, RunFrom(t, after, sha), id))
              <==> id !in s.uploads && !Holding(s, id)
  {
    var s := Run(before, sha);
    RunInv(before, sha);
    DeletesIt(s, e, id, sha);
    DeletesOnlyIt(s, e, id, sha);
    AfterEvent(before, e, sha);
    GoneForGoodIff(before + [e], id, sha);
    if id !in s.uploads { UnlistedIsGone(before + [e], id, sha); }
  }

  lemma UnlistedIsGone(before: seq<Event>, id: Id, sha: Sha)
    requires AllPolite(before) && var s := Run(before, sha); id in s.hist.made && id !in s.uploads && id !in s.store
    ensures Gone(Run(before, sha), id)
  {
    var s := Run(before, sha);
    RunInv(before, sha);
    assert UploadOk(s, id, sha);
    forall h | 0 <= h < |s.handles| && s.handles[h].id == id
      ensures s.handles[h].file.None?
    {
      UnlistedIsSpent(s, id, h, sha);
    }
  }

  // ---- The last step of a finish ------------------------------------------------------------

  lemma AnsweringIsListed(s: State, h: nat, sha: Sha)
    requires Inv(s, sha) && h < |s.handles| && s.handles[h].work.Answering?
    ensures Listed(s, h) && !Holding(s, s.handles[h].id)
  {
    var m := s.hist.made[s.handles[h].id];
    assert UploadOk(s, s.handles[h].id, sha);
    assert HandleOk(s.handles[h], m, Listed(s, h), m.temp in s.names, sha);
  }

  lemma AnswerUnlists(s: State, h: nat, sha: Sha)
    requires h < |s.handles| && s.handles[h].work.Answering? && Listed(s, h)
    ensures var t := Step(s, WorkNext(h, true), sha);
            && t.store == s.store && t.saved == s.saved && t.opens == s.opens && t.names == s.names
            && s.handles[h].id !in t.uploads
  {
  }

  /** The answer to a finish ends the upload for good exactly if the deletion of its record could be saved. */
  lemma FinishIsFinalIff(before: seq<Event>, h: nat, sha: Sha)
    requires AllPolite(before) && var s := Run(before, sha); h < |s.handles| && s.handles[h].work.Answering?
    ensures var s := Run(before, sha);
            var id, t := s.handles[h].id, Step(s, WorkNext(h, true), sha);
            (forall after :: AllPolite(after) ==> Over(t, RunFrom(t, after, sha), id))
              <==> id !in s.store && id !in s.saved
  {
    var s, e := Run(before, sha), WorkNext(h, true);
    var id := s.handles[h].id;
    RunInv(before, sha);
    AnsweringIsListed(s, h, sha);
    AnswerUnlists(s, h, sha);
    AfterEvent(before, e, sha);
    GoneForGoodIff(before + [e], id, sha);
    if id !in s.store { UnlistedIsGone(before + [e], id, sha); }
  }
}
