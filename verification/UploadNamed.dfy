/** When an upload that is being written keeps its temporary name and its record. */
module UploadNamed {
  import opened Prelude
  import opened UploadState
  import opened UploadMachine
  import opened UploadInvariant
  import opened UploadRuns

  /** A cancel or expiry past its look at the table of active uploads. */
  predicate Removes(stage: RemovalStage) {
    stage.LookingUp? || stage.Unlinking? || stage.Erasing?
  }

  /** An abort past its own entry in the table. */
  predicate Aborts(u: Upload) {
    u.closing.Stopping? && (u.closing.stage.Removing? || u.closing.stage.Deleting?)
  }

  ghost predicate NonePending(s: State, id: Id) {
    && (forall i :: 0 <= i < |s.removals| && s.removals[i].id == id ==> !Removes(s.removals[i].stage))
    && (forall g :: 0 <= g < |s.handles| && s.handles[g].id == id ==> !Aborts(s.handles[g]))
  }

  /** The temporary file has its name and the upload its record. */
  predicate Resumable(s: State, id: Id) {
    id in s.hist.made && s.hist.made[id].temp in s.names && id in s.store
  }

  /** Handle `h` of upload `id`, if its file is open, is safe from what is in progress. */
  ghost predicate Secure(s: State, h: nat, id: Id) {
    h < |s.handles| && s.handles[h].id == id && (s.handles[h].file.Some? ==> Resumable(s, id) && NonePending(s, id))
  }

  // ---- A closed file stays closed -----------------------------------------------------------

  predicate OpensNothing(s: State, c: Change) {
    c.handle.Some? ==>
      && c.handle.value.h < |s.handles| && c.handle.value.u.id == s.handles[c.handle.value.h].id
      && (c.handle.value.u.file.Some? ==> s.handles[c.handle.value.h].file.Some?)
  }

  lemma StopOpensNothing(s: State, h: nat, now: int, ok: bool)
    requires h < |s.handles|
    ensures OpensNothing(s, Stop(h, s.handles[h], Get(s.store, s.handles[h].id), Listed(s, h), now, ok))
  {
  }

  lemma HandleOpensNothing(s: State, e: Event, sha: Sha)
    requires OfHandle(e) && Possible(s, e)
    ensures OpensNothing(s, HandleChange(s, e, sha))
  {
    if e.StopNext? { StopOpensNothing(s, e.h, e.now, e.ok); }
  }

  lemma EventOpensNothing(s: State, e: Event, sha: Sha)
    requires Ordinary(e) && Possible(s, e)
    ensures OpensNothing(s, ChangeOf(s, e, sha))
  {
    if OfHandle(e) { HandleOpensNothing(s, e, sha); }
  }

  lemma ClosedStays(s: State, e: Event, h: nat, sha: Sha)
    requires h < |s.handles| && s.handles[h].file.None?
    ensures var t := Step(s, e, sha); h < |t.handles| && t.handles[h].file.None? && t.handles[h].id == s.handles[h].id
  {
    if Ordinary(e) && Possible(s, e) { EventOpensNothing(s, e, sha); }
  }

  // ---- Secure handles stay secure -----------------------------------------------------------

  /** Takes no name and no record away, and begins nothing that would. */
  predicate Safe(s: State, c: Change) {
    && !c.op.Erase? && c.unlink.None? && c.rename.None? && c.listing.None? && OpensNothing(s, c)
    && (c.handle.Some? ==> !Aborts(c.handle.value.u))
    && (c.removal.Some? ==> !Removes(c.removal.value.stage)) && (c.begin.Some? ==> !Removes(c.begin.value))
  }

  lemma SecureBySafe(s: State, h: nat, id: Id, c: Change)
    requires Secure(s, h, id) && Safe(s, c)
    ensures Secure(Apply(s, id, c), h, id)
  {
  }

  /** Of the handles of an upload only the listed one, which has its file open, does anything. */
  lemma OnlyListed(s: State, h: nat, g: nat, sha: Sha)
    requires h < |s.handles| && s.handles[h].id in s.hist.made && UploadOk(s, s.handles[h].id, sha)
    requires s.handles[h].file.Some?
    requires g < |s.handles| && s.handles[g].id == s.handles[h].id
    ensures Listed(s, h) && Taking(s.handles[h]) && (s.handles[h].work.Idle? || s.handles[h].work.Putting?)
    ensures g != h ==> !Engaged(s.handles[g]) && s.handles[g].file.None? && s.handles[g].work.Idle?
    ensures s.handles[g].completed ==> s.hist.made[s.handles[h].id].temp !in s.names
  {
    var m := s.hist.made[s.handles[h].id];
    assert HandleOk(s.handles[h], m, Listed(s, h), m.temp in s.names, sha);
    assert HandleOk(s.handles[g], m, Listed(s, g), m.temp in s.names, sha);
  }

  lemma HandleIsSafe(s: State, e: Event, sha: Sha)
    requires OfHandle(e) && Possible(s, e)
    requires var u := s.handles[e.h];
             && !Aborts(u) && (u.work.Idle? || u.work.Putting?)
             && (u.closing.Stopping? ==> u.closing.stage.Waiting? || u.closing.stage.Ended?)
    ensures Safe(s, HandleChange(s, e, sha))
  {
  }

  lemma OtherIsSafe(s: State, e: Event, id: Id, sha: Sha)
    requires Ordinary(e) && Possible(s, e) && !OfHandle(e) && Subject(s, e) == id && id in s.uploads
    requires id in s.hist.made
    requires NonePending(s, id) && OpenOk(s, id, s.hist.made[id])
    ensures Safe(s, ChangeOf(s, e, sha))
  {
  }

  lemma SecureByHandle(s: State, e: Event, h: nat, id: Id, sha: Sha)
    requires id in s.hist.made && UploadOk(s, id, sha) && Secure(s, h, id) && s.handles[h].file.Some?
    requires OfHandle(e) && Possible(s, e) && s.handles[e.h].id == id
    ensures Safe(s, HandleChange(s, e, sha))
  {
    OnlyListed(s, h, e.h, sha);
    HandleIsSafe(s, e, sha);
  }

  lemma SecureByOther(s: State, e: Event, h: nat, id: Id, sha: Sha)
    requires id in s.hist.made && UploadOk(s, id, sha) && Secure(s, h, id) && s.handles[h].file.Some?
    requires Ordinary(e) && Possible(s, e) && !OfHandle(e) && Subject(s, e) == id
    ensures Safe(s, ChangeOf(s, e, sha))
  {
    OnlyListed(s, h, h, sha);
    OtherIsSafe(s, e, id, sha);
  }

  lemma SecureByOwn(s: State, e: Event, h: nat, id: Id, sha: Sha)
    requires id in s.hist.made && UploadOk(s, id, sha) && Secure(s, h, id) && s.handles[h].file.Some?
    requires Ordinary(e) && Possible(s, e) && Subject(s, e) == id
    ensures Secure(Step(s, e, sha), h, id)
  {
    if OfHandle(e) {
      SecureByHandle(s, e, h, id, sha);
    } else {
      SecureByOther(s, e, h, id, sha);
    }
    SecureBySafe(s, h, id, ChangeOf(s, e, sha));
  }

  lemma SecureByOthers(s: State, t: State, h: nat, id: Id)
    requires id in s.hist.made && Secure(s, h, id) && Aloof(s, t, id)
    ensures Secure(t, h, id)
  {
  }

  lemma SecureAside(s: State, e: Event, h: nat, id: Id, sha: Sha)
    requires Inv(s, sha) && Polite(e) && Secure(s, h, id) && !Touches(s, e, id)
    ensures Secure(Step(s, e, sha), h, id)
  {
    AloofStep(s, e, id, sha);
    SecureByOthers(s, Step(s, e, sha), h, id);
  }

  lemma CrashCloses(s: State, h: nat, sha: Sha)
    requires h < |s.handles|
    ensures Secure(Step(s, Crash, sha), h, s.handles[h].id)
  {
  }

  lemma SecureStep(s: State, e: Event, h: nat, id: Id, sha: Sha)
    requires Inv(s, sha) && Polite(e) && Secure(s, h, id)
    ensures Secure(Step(s, e, sha), h, id)
  {
    if s.handles[h].file.None? {
      ClosedStays(s, e, h, sha);
    } else if e.Crash? {
      CrashCloses(s, h, sha);
    } else if Touches(s, e, id) {
      SecureByOwn(s, e, h, id, sha);
    } else {
      SecureAside(s, e, h, id, sha);
    }
  }

  lemma {:induction false} SecureRun(s: State, events: seq<Event>, h: nat, id: Id, sha: Sha)
    requires Inv(s, sha) && AllPolite(events) && Secure(s, h, id)
    ensures Secure(RunFrom(s, events, sha), h, id)
  {
    if events != [] {
      var front := events[..|events| - 1];
      SecureRun(s, front, h, id, sha);
      RunFromInv(s, front, sha);
      SecureStep(RunFrom(s, front, sha), events[|events| - 1], h, id, sha);
    }
  }

  // ---- What is pending strikes --------------------------------------------------------------

  ghost predicate Struck(s: State, h: nat, id: Id) {
    h < |s.handles| && s.handles[h].id == id && s.handles[h].file.Some? && !Resumable(s, id)
  }

  lemma UnlinkStrikes(s: State, h: nat, id: Id, c: Change)
    requires h < |s.handles| && s.handles[h].id == id && s.handles[h].file.Some? && id in s.hist.made
    requires (c.handle.Some? ==> c.handle.value.h != h) && c.rename.None?
    requires c.op.Erase? || c.unlink == Some(s.hist.made[id].temp)
    ensures Struck(Apply(s, id, c), h, id)
  {
  }

  lemma RemovalStrikes(s: State, h: nat, id: Id, i: nat, sha: Sha)
    requires h < |s.handles| && s.handles[h].id == id && s.handles[h].file.Some? && id in s.hist.made
    requires i < |s.removals| && s.removals[i].id == id
    requires s.removals[i].stage.Unlinking? || s.removals[i].stage.Erasing?
    requires RemovalOk(s, s.removals[i])
    ensures Struck(Step(s, RemovalNext(i, true), sha), h, id)
  {
    UnlinkStrikes(s, h, id, Remove(s, i, true));
  }

  lemma AbortStrikes(s: State, h: nat, id: Id, g: nat, sha: Sha)
    requires h < |s.handles| && s.handles[h].id == id && s.handles[h].file.Some? && id in s.hist.made
    requires UploadOk(s, id, sha)
    requires g < |s.handles| && s.handles[g].id == id && Aborts(s.handles[g])
    ensures Struck(Step(s, StopNext(g, 0, true), sha), h, id)
  {
    OnlyListed(s, h, g, sha);
    assert HandleOk(s.handles[g], s.hist.made[id], Listed(s, g), s.hist.made[id].temp in s.names, sha);
    UnlinkStrikes(s, h, id, HandleChange(s, StopNext(g, 0, true), sha));
  }

  /** A pending removal of the upload would take its file's name. */
  ghost predicate Aimed(s: State, h: nat, id: Id, i: nat) {
    && h < |s.handles| && s.handles[h].id == id && s.handles[h].file.Some?
    && id in s.hist.made && id in s.store && s.store[id].temp == s.hist.made[id].temp
    && i < |s.removals| && s.removals[i].id == id && Removes(s.removals[i].stage) && RemovalOk(s, s.removals[i])
  }

  lemma PendingIsAimed(s: State, h: nat, id: Id, i: nat, sha: Sha)
    requires Inv(s, sha) && h < |s.handles| && s.handles[h].id == id && s.handles[h].file.Some? && Resumable(s, id)
    requires i < |s.removals| && s.removals[i].id == id && Removes(s.removals[i].stage)
    ensures Aimed(s, h, id, i)
  {
    assert UploadOk(s, id, sha) && RemovalOk(s, s.removals[i]);
  }

  lemma LookupAims(s: State, h: nat, id: Id, i: nat, sha: Sha)
    requires Aimed(s, h, id, i) && s.removals[i].stage.LookingUp?
    ensures var t := Step(s, RemovalNext(i, true), sha); Aimed(t, h, id, i) && t.removals[i].stage.Unlinking?
  {
  }

  lemma LookupStrikes(s: State, h: nat, id: Id, i: nat, sha: Sha)
    requires Aimed(s, h, id, i) && s.removals[i].stage.LookingUp?
    ensures var e := RemovalNext(i, true); Struck(RunFrom(s, [e, e], sha), h, id)
  {
    LookupAims(s, h, id, i, sha);
    RemovalStrikes(Step(s, RemovalNext(i, true), sha), h, id, i, sha);
    RunOf2(s, RemovalNext(i, true), RemovalNext(i, true), sha);
  }

  lemma PendingStrikes(s: State, h: nat, id: Id, i: nat, sha: Sha) returns (events: seq<Event>)
    requires Aimed(s, h, id, i)
    ensures AllPolite(events) && Struck(RunFrom(s, events, sha), h, id)
  {
    var e := RemovalNext(i, true);
    if s.removals[i].stage.LookingUp? {
      events := [e, e];
      LookupStrikes(s, h, id, i, sha);
    } else {
      events := [e];
      RemovalStrikes(s, h, id, i, sha);
      RunOf1(s, e, sha);
    }
  }

  lemma PendingAbortStrikes(s: State, h: nat, id: Id, g: nat, sha: Sha) returns (events: seq<Event>)
    requires Inv(s, sha) && h < |s.handles| && s.handles[h].id == id && s.handles[h].file.Some?
    requires g < |s.handles| && s.handles[g].id == id && Aborts(s.handles[g])
    ensures AllPolite(events) && Struck(RunFrom(s, events, sha), h, id)
  {
    events := [StopNext(g, 0, true)];
    RunOf1(s, StopNext(g, 0, true), sha);
    assert UploadOk(s, id, sha);
    AbortStrikes(s, h, id, g, sha);
  }

  /** What is pending is a removal, or else an abort, under number `k`. */
  lemma Striker(s: State, id: Id) returns (removal: bool, k: nat)
    requires !NonePending(s, id)
    ensures removal ==> k < |s.removals| && s.removals[k].id == id && Removes(s.removals[k].stage)
    ensures !removal ==> k < |s.handles| && s.handles[k].id == id && Aborts(s.handles[k])
  {
    if i :| 0 <= i < |s.removals| && s.removals[i].id == id && Removes(s.removals[i].stage) {
      removal, k := true, i;
    } else {
      var g :| 0 <= g < |s.handles| && s.handles[g].id == id && Aborts(s.handles[g]);
      removal, k := false, g;
    }
  }

  lemma StruckAlready(s: State, h: nat, id: Id, sha: Sha) returns (events: seq<Event>)
    requires Struck(s, h, id)
    ensures AllPolite(events) && Struck(RunFrom(s, events, sha), h, id)
  {
    events := [];
  }

  lemma Strikes(s: State, h: nat, id: Id, sha: Sha) returns (events: seq<Event>)
    requires Inv(s, sha) && h < |s.handles| && s.handles[h].id == id && s.handles[h].file.Some? && !Secure(s, h, id)
    ensures AllPolite(events) && Struck(RunFrom(s, events, sha), h, id)
  {
    if !Resumable(s, id) {
      events := StruckAlready(s, h, id, sha);
    } else {
      var removal, k := Striker(s, id);
      if removal {
        PendingIsAimed(s, h, id, k, sha);
        events := PendingStrikes(s, h, id, k, sha);
      } else {
        events := PendingAbortStrikes(s, h, id, k, sha);
      }
    }
  }

  /**
   While a handle has its file open, its temporary name and its record stay, in every continuation, if
   and only if both are there and no cancel, expiry or earlier abort of the upload is past its look at
   the table of active uploads.
   */
  lemma OpenUploadStaysResumableIff(before: seq<Event>, h: nat, sha: Sha)
    requires AllPolite(before) && h < |Run(before, sha).handles| && Run(before, sha).handles[h].file.Some?
    ensures var s := Run(before, sha);
            var id := s.handles[h].id;
            (forall after :: AllPolite(after) ==> !Struck(RunFrom(s, after, sha), h, id))
              <==> Resumable(s, id) && NonePending(s, id)
  {
    var s := Run(before, sha);
    var id := s.handles[h].id;
    RunInv(before, sha);
    if Secure(s, h, id) {
      forall after | AllPolite(after)
        ensures !Struck(RunFrom(s, after, sha), h, id)
      {
        SecureRun(s, after, h, id, sha);
      }
    } else {
      var after := Strikes(s, h, id, sha);
    }
  }
}
