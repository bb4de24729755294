/** How far the stored offset of an open upload can lag behind the accepted bytes. */
module UploadSaves {
  import opened Prelude
  import opened UploadState
  import opened UploadMachine
  import opened UploadInvariant
  import opened UploadRuns

  datatype Frame = Frame(now: int, count: nat)

  predicate Accepts(s: State, e: Event, h: nat) {
    && e.DataFrame? && e.h == h && h < |s.handles|
    && s.handles[h].work.Idle? && DataAccepted(s.handles[h], e.offset, e.raw)
  }

  predicate IsRecent(u: Upload, now: int) {
    u.lastSave.Some? && now - u.lastSave.value < PERSIST_INTERVAL
  }

  /** The accepted frames of a handle since it last went to save. */
  ghost function LateAfter(s: State, e: Event, h: nat, late: seq<Frame>): seq<Frame> {
    if !Accepts(s, e, h) then late
    else if IsRecent(s.handles[h], e.now) then late + [Frame(e.now, |e.raw|)]
    else []
  }

  ghost function Late(events: seq<Event>, h: nat, sha: Sha): seq<Frame> {
    if events == [] then []
    else
      var front := events[..|events| - 1];
      LateAfter(Run(front, sha), events[|events| - 1], h, Late(front, h, sha))
  }

  function Total(late: seq<Frame>): nat {
    if late == [] then 0 else Total(late[..|late| - 1]) + late[|late| - 1].count
  }

  // ---- The lag of one handle ----------------------------------------------------------------

  /** The bytes of `late` are what the offset `kept`, if there is a record, lags behind. */
  ghost predicate Lags(u: Upload, kept: nat, stored: bool, late: seq<Frame>) {
    u.file.Some? ==>
      && (u.work.Putting? ==> late == [])
      && (u.work.Idle? && stored ==> kept + Total(late) == u.offset)
      && (forall i :: 0 <= i < |late| ==> IsRecent(u, late[i].now))
  }

  ghost predicate Lagging(s: State, h: nat, late: seq<Frame>) {
    if h < |s.handles| then
      var id := s.handles[h].id;
      id in s.hist.made && Lags(s.handles[h], s.hist.made[id].kept, id in s.store, late)
    else late == []
  }

  function KeptAfter(kept: nat, c: Change): nat {
    if c.op.Write? then c.op.rec.offset else kept
  }

  /** The handle is engaged with its file open, as the invariant has it. */
  predicate InOrder(u: Upload) {
    u.file.Some? ==> Taking(u) && (u.work.Idle? || (u.work.Putting? && u.work.rec.offset == u.offset))
  }

  predicate OwnChange(h: nat, u: Upload, c: Change) {
    c.listing.None? && (c.handle.Some? ==> c.handle.value.h == h && c.handle.value.u.id == u.id)
  }

  ghost predicate LagsAfter(u: Upload, c: Change, kept: nat, stored: bool, late: seq<Frame>) {
    Lags(if c.handle.Some? then c.handle.value.u else u, KeptAfter(kept, c), StoredAfter(stored, c), late)
  }

  lemma TotalSnoc(late: seq<Frame>, f: Frame)
    ensures Total(late + [f]) == Total(late) + f.count
  {
    assert (late + [f])[..|late|] == late;
  }

  lemma FeedLags(h: nat, u: Upload, content: seq<byte>, stored: Option<Record>, offset: int, raw: seq<byte>, now: int,
                 kept: nat, late: seq<Frame>)
    requires Lags(u, kept, stored.Some?, late) && u.work.Idle? && DataAccepted(u, offset, raw)
    ensures var c := Feed(h, u, content, stored, offset, raw, now);
            && OwnChange(h, u, c)
            && LagsAfter(u, c, kept, stored.Some?, if IsRecent(u, now) then late + [Frame(now, |raw|)] else [])
  {
    TotalSnoc(late, Frame(now, |raw|));
  }

  lemma ProceedLags(h: nat, u: Upload, content: Option<seq<byte>>, listed: bool, ok: bool,
                    kept: nat, stored: bool, late: seq<Frame>)
    requires Lags(u, kept, stored, late) && InOrder(u)
    ensures var c := Proceed(h, u, content, listed, ok); OwnChange(h, u, c) && LagsAfter(u, c, kept, stored, late)
  {
  }

  lemma StopLags(h: nat, u: Upload, stored: Option<Record>, listed: bool, now: int, ok: bool, kept: nat,
                 late: seq<Frame>)
    requires Lags(u, kept, stored.Some?, late) && InOrder(u)
    ensures var c := Stop(h, u, stored, listed, now, ok);
            OwnChange(h, u, c) && LagsAfter(u, c, kept, stored.Some?, late)
  {
  }

  lemma HandleLags(s: State, e: Event, kept: nat, late: seq<Frame>, sha: Sha)
    requires OfHandle(e) && Possible(s, e) && InOrder(s.handles[e.h])
    requires Lags(s.handles[e.h], kept, s.handles[e.h].id in s.store, late)
    ensures var u, c := s.handles[e.h], HandleChange(s, e, sha);
            OwnChange(e.h, u, c) && LagsAfter(u, c, kept, u.id in s.store, LateAfter(s, e, e.h, late))
  {
    var h, u := e.h, s.handles[e.h];
    var stored := Get(s.store, u.id);
    match e
    case DataFrame(_, offset, raw, now) =>
      if Accepts(s, e, h) {
        var content := if u.file.value in s.inodes then s.inodes[u.file.value] else [];
        FeedLags(h, u, content, stored, offset, raw, now, kept, late);
      }
    case FinishFrame(_, size, digest) =>
    case WorkNext(_, ok) => ProceedLags(h, u, Content(s, u.temp), Listed(s, h), ok, kept, stored.Some?, late);
    case CloseHandle(_) =>
    case StopNext(_, now, ok) => StopLags(h, u, stored, Listed(s, h), now, ok, kept, late);
  }

  lemma LaggingByOwn(s: State, h: nat, c: Change, before: seq<Frame>, late: seq<Frame>)
    requires h < |s.handles| && Lagging(s, h, before)
    requires var u := s.handles[h];
             OwnChange(h, u, c) && LagsAfter(u, c, s.hist.made[u.id].kept, u.id in s.store, late)
    ensures Lagging(Apply(s, s.handles[h].id, c), h, late)
  {
  }

  lemma LaggingByIt(s: State, e: Event, late: seq<Frame>, sha: Sha)
    requires OfHandle(e) && Possible(s, e) && Lagging(s, e.h, late) && InOrder(s.handles[e.h])
    ensures Lagging(Step(s, e, sha), e.h, LateAfter(s, e, e.h, late))
  {
    HandleLags(s, e, s.hist.made[s.handles[e.h].id].kept, late, sha);
    LaggingByOwn(s, e.h, HandleChange(s, e, sha), late, LateAfter(s, e, e.h, late));
  }

  // ---- The rest of the upload ---------------------------------------------------------------

  /** A change that at most takes the guard of handle `h`, and writes no record while it has its file. */
  predicate Sidelong(u: Upload, h: nat, c: Change) {
    && (u.file.Some? ==> !c.op.Write?)
    && (c.handle.Some? && c.handle.value.h == h ==> c.handle.value.u == u.(closing := c.handle.value.u.closing))
  }

  lemma LaggingSidelong(s: State, h: nat, c: Change, late: seq<Frame>)
    requires h < |s.handles| && Lagging(s, h, late) && Sidelong(s.handles[h], h, c)
    ensures Lagging(Apply(s, s.handles[h].id, c), h, late)
  {
  }

  /** The handle has no save under way. */
  predicate SavesNothing(u: Upload) {
    u.work.Idle? && (u.closing.Stopping? ==> !u.closing.stage.Saving?)
  }

  /** While a handle has its file, the others of its upload have no save under way and no open is past its takeover. */
  lemma HeldAlone(s: State, id: Id, h: nat, sha: Sha)
    requires id in s.hist.made && UploadOk(s, id, sha) && h < |s.handles| && s.handles[h].id == id
    requires s.handles[h].file.Some?
    ensures id in s.opens ==> s.opens[id].Displacing?
    ensures forall g :: 0 <= g < |s.handles| && g != h && s.handles[g].id == id ==> SavesNothing(s.handles[g])
  {
    var m := s.hist.made[id];
    assert HandleOk(s.handles[h], m, Listed(s, h), m.temp in s.names, sha);
    forall g | 0 <= g < |s.handles| && g != h && s.handles[g].id == id
      ensures SavesNothing(s.handles[g])
    {
      assert HandleOk(s.handles[g], m, Listed(s, g), m.temp in s.names, sha);
    }
  }

  lemma IdleWritesNothing(s: State, e: Event, sha: Sha)
    requires OfHandle(e) && Possible(s, e) && SavesNothing(s.handles[e.h])
    ensures !HandleChange(s, e, sha).op.Write?
  {
  }

  lemma HandleSidelong(s: State, e: Event, h: nat, sha: Sha)
    requires OfHandle(e) && Possible(s, e) && h < |s.handles| && e.h != h
    requires s.handles[h].file.Some? ==> SavesNothing(s.handles[e.h])
    ensures Sidelong(s.handles[h], h, HandleChange(s, e, sha))
  {
    if s.handles[h].file.Some? { IdleWritesNothing(s, e, sha); }
    HandleChangeIsOwn(s, e, sha);
  }

  lemma HandleChangeIsOwn(s: State, e: Event, sha: Sha)
    requires OfHandle(e) && Possible(s, e)
    ensures var c := HandleChange(s, e, sha); c.handle.Some? ==> c.handle.value.h == e.h
  {
  }

  lemma OtherSidelong(s: State, e: Event, h: nat, sha: Sha)
    requires Ordinary(e) && Possible(s, e) && !OfHandle(e) && h < |s.handles| && Subject(s, e) == s.handles[h].id
    requires s.handles[h].file.Some? && s.handles[h].id in s.opens ==> s.opens[s.handles[h].id].Displacing?
    ensures Sidelong(s.handles[h], h, ChangeOf(s, e, sha))
  {
  }

  lemma LaggingBySide(s: State, e: Event, h: nat, late: seq<Frame>, sha: Sha)
    requires h < |s.handles| && Lagging(s, h, late) && UploadOk(s, s.handles[h].id, sha)
    requires Ordinary(e) && Possible(s, e) && Subject(s, e) == s.handles[h].id && (OfHandle(e) ==> e.h != h)
    ensures Lagging(Step(s, e, sha), h, late)
  {
    if s.handles[h].file.Some? { HeldAlone(s, s.handles[h].id, h, sha); }
    if OfHandle(e) {
      HandleSidelong(s, e, h, sha);
    } else {
      OtherSidelong(s, e, h, sha);
    }
    LaggingSidelong(s, h, ChangeOf(s, e, sha), late);
  }

  // ---- New handles, other uploads, crashes --------------------------------------------------

  lemma OnlyStoredLists(s: State, e: Event, sha: Sha)
    requires Ordinary(e) && Possible(s, e) && ChangeOf(s, e, sha).listing.Some?
    ensures e.OpenNext? && s.opens[e.id].Stored? && ChangeOf(s, e, sha).op.Keep?
    ensures var o := s.opens[e.id];
            o.req.size >= 0 && ChangeOf(s, e, sha).listing.value == NewHandle(e.id, o.rec, o.ino, o.hashed, o.req)
  {
  }

  lemma LaggingByListing(s: State, id: Id, c: Change, h: nat)
    requires id in s.hist.made && h >= |s.handles|
    requires c.listing.Some? ==>
               && c.op.Keep? && c.listing.value.id == id && c.listing.value.work.Idle?
               && c.listing.value.offset == s.hist.made[id].kept
    ensures Lagging(Apply(s, id, c), h, [])
  {
  }

  lemma LaggingUnlisted(s: State, id: Id, c: Change, h: nat)
    requires c.listing.None? && h >= |s.handles|
    ensures Lagging(Apply(s, id, c), h, [])
  {
  }

  lemma StoredAtOffset(s: State, id: Id, sha: Sha)
    requires Inv(s, sha) && id in s.opens && s.opens[id].Stored?
    ensures id in s.hist.made && s.opens[id].rec.offset == s.hist.made[id].kept
  {
    assert UploadOk(s, id, sha);
  }

  lemma AnewByListing(s: State, e: Event, h: nat, sha: Sha)
    requires Ordinary(e) && Possible(s, e) && h >= |s.handles| && ChangeOf(s, e, sha).listing.Some?
    requires e.OpenNext? && s.opens[e.id].Stored? ==>
               e.id in s.hist.made && s.opens[e.id].rec.offset == s.hist.made[e.id].kept
    ensures Lagging(Step(s, e, sha), h, [])
  {
    OnlyStoredLists(s, e, sha);
    LaggingByListing(s, e.id, ChangeOf(s, e, sha), h);
  }

  lemma AnewOrdinary(s: State, e: Event, h: nat, sha: Sha)
    requires Ordinary(e) && Possible(s, e) && h >= |s.handles|
    requires e.OpenNext? && s.opens[e.id].Stored? ==>
               e.id in s.hist.made && s.opens[e.id].rec.offset == s.hist.made[e.id].kept
    ensures Lagging(Step(s, e, sha), h, [])
  {
    if ChangeOf(s, e, sha).listing.Some? {
      AnewByListing(s, e, h, sha);
    } else {
      LaggingUnlisted(s, Subject(s, e), ChangeOf(s, e, sha), h);
    }
  }

  lemma AnewElse(s: State, e: Event, h: nat, sha: Sha)
    requires !(Ordinary(e) && Possible(s, e)) && h >= |s.handles|
    ensures Lagging(Step(s, e, sha), h, [])
  {
  }

  lemma LaggingAnew(s: State, e: Event, h: nat, sha: Sha)
    requires Inv(s, sha) && h >= |s.handles|
    ensures Lagging(Step(s, e, sha), h, [])
  {
    if Ordinary(e) && Possible(s, e) {
      if e.OpenNext? && s.opens[e.id].Stored? { StoredAtOffset(s, e.id, sha); }
      AnewOrdinary(s, e, h, sha);
    } else {
      AnewElse(s, e, h, sha);
    }
  }

  lemma LaggingByOthers(s: State, t: State, h: nat, late: seq<Frame>)
    requires h < |s.handles| && Lagging(s, h, late) && Untouched(s, t, s.handles[h].id)
    ensures Lagging(t, h, late)
  {
  }

  lemma LaggingByCrash(s: State, h: nat, late: seq<Frame>, sha: Sha)
    requires h < |s.handles| && Lagging(s, h, late)
    ensures Lagging(Step(s, Crash, sha), h, late)
  {
  }

  // ---- Every run ----------------------------------------------------------------------------

  lemma HandleInOrder(s: State, h: nat, sha: Sha)
    requires Inv(s, sha) && h < |s.handles|
    ensures s.handles[h].id in s.hist.made && InOrder(s.handles[h])
  {
    var m := s.hist.made[s.handles[h].id];
    assert UploadOk(s, s.handles[h].id, sha);
    assert HandleOk(s.handles[h], m, Listed(s, h), m.temp in s.names, sha);
  }

  lemma NoFrameNoChange(s: State, e: Event, h: nat, late: seq<Frame>)
    requires !(OfHandle(e) && e.h == h)
    ensures LateAfter(s, e, h, late) == late
  {
  }

  lemma LaggingAside(s: State, e: Event, h: nat, late: seq<Frame>, sha: Sha)
    requires Inv(s, sha) && Polite(e) && h < |s.handles| && Lagging(s, h, late) && !Touches(s, e, s.handles[h].id)
    ensures Lagging(Step(s, e, sha), h, late)
  {
    AloofStep(s, e, s.handles[h].id, sha);
    LaggingByOthers(s, Step(s, e, sha), h, late);
  }

  lemma LaggingTouched(s: State, e: Event, h: nat, late: seq<Frame>, sha: Sha)
    requires h < |s.handles| && Lagging(s, h, late) && Touches(s, e, s.handles[h].id) && !(OfHandle(e) && e.h == h)
    requires UploadOk(s, s.handles[h].id, sha)
    ensures Lagging(Step(s, e, sha), h, late)
  {
    if e.Crash? {
      LaggingByCrash(s, h, late, sha);
    } else {
      LaggingBySide(s, e, h, late, sha);
    }
  }

  lemma LaggingElsewhere(s: State, e: Event, h: nat, late: seq<Frame>, sha: Sha)
    requires Inv(s, sha) && Polite(e) && h < |s.handles| && Lagging(s, h, late) && !(OfHandle(e) && e.h == h)
    ensures Lagging(Step(s, e, sha), h, late)
  {
    if Touches(s, e, s.handles[h].id) {
      LaggingTouched(s, e, h, late, sha);
    } else {
      LaggingAside(s, e, h, late, sha);
    }
  }

  lemma LaggingStep(s: State, e: Event, h: nat, late: seq<Frame>, sha: Sha)
    requires Inv(s, sha) && Polite(e) && Lagging(s, h, late)
    ensures Lagging(Step(s, e, sha), h, LateAfter(s, e, h, late))
  {
    if h >= |s.handles| {
      LaggingAnew(s, e, h, sha);
    } else if OfHandle(e) && e.h == h {
      HandleInOrder(s, h, sha);
      LaggingByIt(s, e, late, sha);
    } else {
      NoFrameNoChange(s, e, h, late);
      LaggingElsewhere(s, e, h, late, sha);
    }
  }

  lemma {:induction false} LaggingRun(events: seq<Event>, h: nat, sha: Sha)
    requires AllPolite(events)
    ensures Lagging(Run(events, sha), h, Late(events, h, sha))
  {
    if events != [] {
      var front := events[..|events| - 1];
      LaggingRun(front, h, sha);
      RunInv(front, sha);
      LaggingStep(Run(front, sha), events[|events| - 1], h, Late(front, h, sha), sha);
    }
  }

  /**
   In every run: the offset stored for an open upload, or about to be stored, lags behind its accepted bytes by
   exactly the frames since the last save, and each of them came less than half a second after that save.
   */
  lemma OffsetIsSavedOrRecent(events: seq<Event>, h: nat, sha: Sha)
    requires AllPolite(events)
    requires var s := Run(events, sha); h < |s.handles| && s.handles[h].file.Some? && s.handles[h].id in s.store
    ensures var s, late := Run(events, sha), Late(events, h, sha);
            var u := s.handles[h];
            && u.offset == (if u.work.Putting? then u.work.rec.offset else s.store[u.id].offset) + Total(late)
            && (u.work.Putting? ==> late == [])
            && forall i :: 0 <= i < |late| ==> u.lastSave.Some? && late[i].now - u.lastSave.value < 500_000_000
  {
    LaggingRun(events, h, sha);
    LagIsTotal(Run(events, sha), h, Late(events, h, sha), sha) by { RunInv(events, sha); }
  }

  lemma LagIsTotal(s: State, h: nat, late: seq<Frame>, sha: Sha)
    requires Inv(s, sha) && h < |s.handles| && s.handles[h].file.Some? && s.handles[h].id in s.store
    requires Lagging(s, h, late)
    ensures var u := s.handles[h];
            && u.offset == (if u.work.Putting? then u.work.rec.offset else s.store[u.id].offset) + Total(late)
            && (u.work.Putting? ==> late == [])
            && forall i :: 0 <= i < |late| ==> IsRecent(u, late[i].now)
  {
    HandleInOrder(s, h, sha);
    assert UploadOk(s, s.handles[h].id, sha);
  }
}
