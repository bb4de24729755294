/** Each step keeps the invariant: frames, Close, abortAndRemove, opens, cancels and expiry. */
module UploadSteps {
  import opened Prelude
  import opened UploadState
  import opened UploadMachine
  import opened UploadInvariant

  // ---- Handles, by value --------------------------------------------------------------------

  /** A change to a handle of an upload, rename apart; `listed` and `named` as in `HandleOk`. */
  ghost predicate Good(h: nat, u: Upload, m: Info, c: Change, listed: bool, named: bool, sha: Sha) {
    && c.rename.None? && c.published.None? && c.listing.None? && c.slot.Same? && c.removal.None? && c.begin.None?
    && (c.unlink.Some? ==> c.unlink.value == m.temp) && (c.file.Some? ==> c.file.value.ino == m.ino && u.file.Some?)
    && (c.unlist ==> listed) && (NewInfo(m, c) == m || listed) && FileSound(m, c)
    && (c.handle.None? ==> c == NOTHING)
    && (c.handle.Some? ==>
          && c.handle.value.h == h && c.handle.value.u.id == u.id && NoNewWriter(u, c.handle.value.u)
          && HandleOk(c.handle.value.u, NewInfo(m, c), listed && !c.unlist, named && c.unlink.None?, sha))
  }

  predicate Fits(m: Info) {
    m.kept <= |m.fed| <= m.size
  }

  predicate StoredFits(m: Info, stored: Option<Record>) {
    stored.Some? ==> Shape(m, stored.value) && stored.value.offset == m.kept
  }

  lemma ClaimGood(h: nat, u: Upload, m: Info, abort: bool, listed: bool, named: bool, sha: Sha)
    requires HandleOk(u, m, listed, named, sha) && Fits(m)
    ensures Good(h, u, m, Claim(h, u, abort), listed, named, sha)
  {
  }

  lemma FeedGood(h: nat, u: Upload, m: Info, stored: Option<Record>, offset: int, raw: seq<byte>, now: int,
                 listed: bool, named: bool, sha: Sha)
    requires HandleOk(u, m, listed, named, sha) && Fits(m) && StoredFits(m, stored)
    ensures Good(h, u, m, Feed(h, u, m.fed, stored, offset, raw, now), listed, named, sha)
  {
    if u.work.Idle? && DataAccepted(u, offset, raw) {
      assert WriteAt(m.fed, u.offset, raw) == u.hashed + raw;
    }
  }

  lemma FinishGood(h: nat, u: Upload, m: Info, taken: bool, size: int, digest: Digest, listed: bool, named: bool,
                   sha: Sha)
    requires HandleOk(u, m, listed, named, sha) && Fits(m)
    ensures Good(h, u, m, Finish(h, u, taken, size, digest, sha), listed, named, sha)
  {
  }

  lemma ProceedGood(h: nat, u: Upload, m: Info, content: Option<seq<byte>>, ok: bool, listed: bool, named: bool,
                    sha: Sha)
    requires HandleOk(u, m, listed, named, sha) && Fits(m) && (u.work.Renaming? ==> content.None?)
    ensures Good(h, u, m, Proceed(h, u, content, listed, ok), listed, named, sha)
  {
  }

  lemma StopWaiting(h: nat, u: Upload, m: Info, stored: Option<Record>, now: int, ok: bool, listed: bool, named: bool,
                    sha: Sha)
    requires HandleOk(u, m, listed, named, sha) && Fits(m) && StoredFits(m, stored)
    requires u.closing.Stopping? && u.closing.stage.Waiting?
    ensures Good(h, u, m, Stop(h, u, stored, listed, now, ok), listed, named, sha)
  {
  }

  lemma StopMoves(h: nat, u: Upload, m: Info, stored: Option<Record>, now: int, ok: bool, listed: bool, named: bool,
                  sha: Sha)
    requires HandleOk(u, m, listed, named, sha) && Fits(m) && u.closing.Stopping? && !u.closing.stage.Waiting?
    ensures Good(h, u, m, Stop(h, u, stored, listed, now, ok), listed, named, sha)
  {
    if u.closing.stage.Unlisting? {
      assert !u.closing.stage.Saving?;
    }
  }

  lemma StopGood(h: nat, u: Upload, m: Info, stored: Option<Record>, now: int, ok: bool, listed: bool, named: bool,
                 sha: Sha)
    requires HandleOk(u, m, listed, named, sha) && Fits(m) && StoredFits(m, stored)
    ensures Good(h, u, m, Stop(h, u, stored, listed, now, ok), listed, named, sha)
  {
    if u.closing.Stopping? {
      if u.closing.stage.Waiting? {
        StopWaiting(h, u, m, stored, now, ok, listed, named, sha);
      } else {
        StopMoves(h, u, m, stored, now, ok, listed, named, sha);
      }
    }
  }

  // ---- Handles ------------------------------------------------------------------------------

  /** A change that leaves the open of its upload as it is. */
  lemma OpenKept(s: State, id: Id, c: Change)
    requires id in s.hist.made && Own(s, id, c) && OpenOk(s, id, s.hist.made[id]) && c.slot.Same? && c.listing.None?
    requires NewInfo(s.hist.made[id], c) == s.hist.made[id] || id in s.uploads
    ensures OpenOk(Apply(s, id, c), id, NewInfo(s.hist.made[id], c))
  {
  }

  lemma HandleSounds(s: State, h: nat, c: Change, sha: Sha)
    requires h < |s.handles| && s.handles[h].id in s.hist.made && UploadOk(s, s.handles[h].id, sha)
    requires var m := s.hist.made[s.handles[h].id]; Good(h, s.handles[h], m, c, Listed(s, h), m.temp in s.names, sha)
    ensures Sound(s, s.handles[h].id, c, sha) && WriterSound(s, s.handles[h].id, c)
  {
    var id := s.handles[h].id;
    OpenKept(s, id, c);
    if s.handles[h].file.Some? { WriterUnpublished(s, id, h, sha); }
  }

  lemma HandleInv(s: State, h: nat, c: Change, sha: Sha)
    requires Inv(s, sha) && h < |s.handles|
    requires var m := s.hist.made[s.handles[h].id]; Good(h, s.handles[h], m, c, Listed(s, h), m.temp in s.names, sha)
    ensures var t := Apply(s, s.handles[h].id, c); Inv(t, sha) && Others(s, t, s.handles[h].id)
  {
    assert UploadOk(s, s.handles[h].id, sha);
    HandleSounds(s, h, c, sha);
    ApplyInv(s, s.handles[h].id, c, sha);
  }

  /** A handle as the invariant sees it. */
  lemma HandleFacts(s: State, h: nat, sha: Sha)
    requires Inv(s, sha) && h < |s.handles|
    ensures s.handles[h].id in s.hist.made
    ensures var u, m := s.handles[h], s.hist.made[s.handles[h].id];
            && HandleOk(u, m, Listed(s, h), m.temp in s.names, sha) && Fits(m) && StoredFits(m, Get(s.store, u.id))
            && (u.file.Some? ==> u.file.value in s.inodes && s.inodes[u.file.value] == m.fed)
            && Content(s, m.temp) == if m.temp in s.names then Some(m.fed) else None
  {
    assert UploadOk(s, s.handles[h].id, sha);
  }

  lemma DataGood(s: State, h: nat, offset: int, raw: seq<byte>, now: int, sha: Sha)
    requires Inv(s, sha) && h < |s.handles|
    ensures s.handles[h].id in s.hist.made
    ensures var m := s.hist.made[s.handles[h].id];
            var c := HandleChange(s, DataFrame(h, offset, raw, now), sha);
            Good(h, s.handles[h], m, c, Listed(s, h), m.temp in s.names, sha)
  {
    HandleFacts(s, h, sha);
    var u := s.handles[h];
    var m := s.hist.made[u.id];
    FeedGood(h, u, m, Get(s.store, u.id), offset, raw, now, Listed(s, h), m.temp in s.names, sha);
  }

  lemma HandleGood(s: State, e: Event, sha: Sha)
    requires Inv(s, sha) && OfHandle(e) && Possible(s, e)
    requires !(e.WorkNext? && s.handles[e.h].work.Renaming? && s.handles[e.h].temp in s.names)
    ensures s.handles[e.h].id in s.hist.made
    ensures var m := s.hist.made[s.handles[e.h].id];
            Good(e.h, s.handles[e.h], m, HandleChange(s, e, sha), Listed(s, e.h), m.temp in s.names, sha)
  {
    HandleFacts(s, e.h, sha);
    var h, u := e.h, s.handles[e.h];
    var m := s.hist.made[u.id];
    var listed, named, stored := Listed(s, h), m.temp in s.names, Get(s.store, u.id);
    match e
    case DataFrame(_, offset, raw, now) => DataGood(s, h, offset, raw, now, sha);
    case FinishFrame(_, size, digest) => FinishGood(h, u, m, u.path in s.names, size, digest, listed, named, sha);
    case WorkNext(_, ok) => ProceedGood(h, u, m, Content(s, u.temp), ok, listed, named, sha);
    case CloseHandle(_) => ClaimGood(h, u, m, false, listed, named, sha);
    case StopNext(_, now, ok) => StopGood(h, u, m, stored, now, ok, listed, named, sha);
  }

  // ---- Publishing ---------------------------------------------------------------------------

  /** While one handle renames, no handle and no open can write. */
  lemma OnlyRenamer(s: State, h: nat, g: nat, sha: Sha)
    requires h < |s.handles| && g < |s.handles| && s.handles[g].id == s.handles[h].id && s.handles[h].id in s.hist.made
    requires HandlesOk(s, s.handles[h].id, s.hist.made[s.handles[h].id], sha) && s.handles[h].work.Renaming? && g != h
    ensures s.handles[g].file.None? && !s.handles[g].work.Renaming?
  {
    var m := s.hist.made[s.handles[h].id];
    assert HandleOk(s.handles[h], m, Listed(s, h), m.temp in s.names, sha);
    assert HandleOk(s.handles[g], m, Listed(s, g), m.temp in s.names, sha);
  }

  lemma RenameFrozen(s: State, h: nat, c: Change, sha: Sha)
    requires h < |s.handles| && s.handles[h].id in s.hist.made && UploadOk(s, s.handles[h].id, sha)
    requires s.handles[h].work.Renaming?
    requires c.handle == Some(HandleAt(h, s.handles[h].(work := Forgetting))) && c.slot.Same? && c.listing.None?
    ensures Frozen(Apply(s, s.handles[h].id, c), s.handles[h].id)
  {
    var id, t := s.handles[h].id, Apply(s, s.handles[h].id, c);
    var m := s.hist.made[id];
    assert HandleOk(s.handles[h], m, Listed(s, h), m.temp in s.names, sha);
    forall g | 0 <= g < |t.handles| && t.handles[g].id == id
      ensures t.handles[g].file.None? && !t.handles[g].work.Renaming?
    {
      if g != h { OnlyRenamer(s, h, g, sha); }
    }
  }

  lemma RenameSound(s: State, h: nat, ok: bool, sha: Sha)
    requires h < |s.handles| && s.handles[h].id in s.hist.made && UploadOk(s, s.handles[h].id, sha)
    requires s.handles[h].work.Renaming? && s.handles[h].temp in s.names
    ensures var u := s.handles[h];
            Unpublished(s, u.id) && Sound(s, u.id, Proceed(h, u, Content(s, u.temp), Listed(s, h), ok), sha)
  {
    var id := s.handles[h].id;
    var m := s.hist.made[id];
    assert HandleOk(s.handles[h], m, Listed(s, h), m.temp in s.names, sha);
    WriterUnpublished(s, id, h, sha);
    OpenKept(s, id, Proceed(h, s.handles[h], Content(s, s.handles[h].temp), Listed(s, h), ok));
  }

  lemma RenamePublished(s: State, h: nat, ok: bool, sha: Sha)
    requires h < |s.handles| && s.handles[h].id in s.hist.made
    requires UploadOk(s, s.handles[h].id, sha) && Unpublished(s, s.handles[h].id)
    requires s.handles[h].work.Renaming? && s.handles[h].temp in s.names
    ensures var u := s.handles[h];
            var c := Proceed(h, u, Content(s, u.temp), Listed(s, h), ok);
            PublishedOk(Apply(s, u.id, c), u.id, s.hist.made[u.id], sha)
  {
    var u := s.handles[h];
    var m := s.hist.made[u.id];
    assert HandleOk(u, m, Listed(s, h), m.temp in s.names, sha);
    RenameFrozen(s, h, Proceed(h, u, Content(s, u.temp), Listed(s, h), ok), sha);
  }

  lemma RenameUpload(s: State, h: nat, ok: bool, sha: Sha)
    requires h < |s.handles| && s.handles[h].id in s.hist.made && UploadOk(s, s.handles[h].id, sha)
    requires s.handles[h].work.Renaming? && s.handles[h].temp in s.names
    ensures var u := s.handles[h];
            var c := Proceed(h, u, Content(s, u.temp), Listed(s, h), ok);
            && Own(s, u.id, c) && c.removal.None? && c.begin.None? && Unpublished(s, u.id)
            && UploadOk(Apply(s, u.id, c), u.id, sha)
  {
    var u := s.handles[h];
    RenameSound(s, h, ok, sha);
    RenamePublished(s, h, ok, sha);
    ApplyUpload(s, u.id, Proceed(h, u, Content(s, u.temp), Listed(s, h), ok), sha);
  }

  lemma RenameInv(s: State, h: nat, ok: bool, sha: Sha)
    requires Inv(s, sha) && h < |s.handles| && s.handles[h].work.Renaming? && s.handles[h].temp in s.names
    ensures var u := s.handles[h];
            var t := Apply(s, u.id, Proceed(h, u, Content(s, u.temp), Listed(s, h), ok));
            Inv(t, sha) && Others(s, t, u.id)
  {
    var u := s.handles[h];
    var c := Proceed(h, u, Content(s, u.temp), Listed(s, h), ok);
    HandleFacts(s, h, sha);
    RenameUpload(s, h, ok, sha);
    FrameInv(s, u.id, c, sha);
  }

  lemma HandleEventInv(s: State, e: Event, sha: Sha)
    requires Inv(s, sha) && OfHandle(e) && Possible(s, e)
    ensures var t := Apply(s, s.handles[e.h].id, HandleChange(s, e, sha));
            Inv(t, sha) && Others(s, t, s.handles[e.h].id)
  {
    if e.WorkNext? && s.handles[e.h].work.Renaming? && s.handles[e.h].temp in s.names {
      RenameInv(s, e.h, e.ok, sha);
    } else {
      HandleGood(s, e, sha);
      HandleInv(s, e.h, HandleChange(s, e, sha), sha);
    }
  }

  // ---- Opens --------------------------------------------------------------------------------

  /** A change of an open; a takeover and the new handle apart. */
  ghost predicate OpenChange(c: Change) {
    && c.unlink.None? && c.rename.None? && c.published.None? && !c.unlist && c.handle.None? && c.removal.None?
    && c.begin.None?
  }

  lemma OpenSounds(s: State, id: Id, c: Change, sha: Sha)
    requires id in s.hist.made && UploadOk(s, id, sha) && OpenChange(c) && c.listing.None?
    requires FileSound(s.hist.made[id], c) && (c.file.Some? ==> c.file.value.ino == s.hist.made[id].ino)
    requires NewInfo(s.hist.made[id], c) == s.hist.made[id] || id !in s.uploads
    requires Unpublished(s, id) || (c.fed.None? && (c.slot.Filled? ==>
               !c.slot.opening.Prepared? && !c.slot.opening.Stored?))
    requires OpenOk(Apply(s, id, c), id, NewInfo(s.hist.made[id], c))
    ensures Sound(s, id, c, sha) && WriterSound(s, id, c)
  {
  }

  /** The next opening of an upload that nobody has listed. */
  ghost predicate SlotOk(m: Info, c: Change) {
    && c.slot.Filled?
    && var n := NewInfo(m, c);
       match c.slot.opening
       case Displacing(_, _) => false
       case Looking(req) => 0 <= req.size
       case Validating(rec, req) => AskedFor(n, rec, req)
       case Discarding => true
       case Prepared(rec, ino, hashed, req) =>
         AskedFor(n, rec, req) && ino == n.ino && hashed == n.fed && |hashed| == rec.offset
       case Stored(rec, ino, hashed, req) =>
         AskedFor(n, rec, req) && ino == n.ino && hashed == n.fed && |hashed| == rec.offset
  }

  lemma SlotOpenOk(s: State, id: Id, c: Change)
    requires id in s.hist.made && c.listing.None?
    requires c.slot.Vacant? || (SlotOk(s.hist.made[id], c) && id !in s.uploads)
    ensures OpenOk(Apply(s, id, c), id, NewInfo(s.hist.made[id], c))
  {
  }

  /** What the step of an open has to show, by value. */
  ghost predicate OpenGood(m: Info, c: Change, unlisted: bool, unpublished: bool) {
    && OpenChange(c) && c.listing.None? && FileSound(m, c) && (c.file.Some? ==> c.file.value.ino == m.ino)
    && (NewInfo(m, c) == m || unlisted)
    && (unpublished || (c.fed.None? && (c.slot.Filled? ==> !c.slot.opening.Prepared? && !c.slot.opening.Stored?)))
    && (c.slot.Vacant? || (SlotOk(m, c) && unlisted))
  }

  lemma OpenGoodInv(s: State, id: Id, c: Change, sha: Sha)
    requires Inv(s, sha) && id in s.hist.made && OpenGood(s.hist.made[id], c, id !in s.uploads, Unpublished(s, id))
    ensures Inv(Apply(s, id, c), sha) && Others(s, Apply(s, id, c), id)
  {
    assert UploadOk(s, id, sha);
    SlotOpenOk(s, id, c);
    OpenSounds(s, id, c, sha);
    ApplyInv(s, id, c, sha);
  }

  /** A takeover ends: the handle that was displaced is off the table. */
  lemma Displaced(s: State, id: Id, sha: Sha)
    requires id in s.hist.made && UploadOk(s, id, sha) && id in s.opens && s.opens[id].Displacing?
    requires HasEnded(s, s.opens[id].h)
    ensures id !in s.uploads
  {
    var h := s.opens[id].h;
    assert HandleOk(s.handles[h], s.hist.made[id], Listed(s, h), s.hist.made[id].temp in s.names, sha);
  }

  lemma AdvanceGood(s: State, id: Id, ok: bool, sha: Sha)
    requires id in s.hist.made && UploadOk(s, id, sha) && id in s.opens
    requires forall p :: p in s.names ==> s.names[p] in s.inodes
    requires s.opens[id].Displacing? ==> HasEnded(s, s.opens[id].h)
    requires !s.opens[id].Stored?
    ensures OpenGood(s.hist.made[id], Advance(s, id, ok), id !in s.uploads, Unpublished(s, id))
  {
    if s.opens[id].Displacing? { Displaced(s, id, sha); }
    if s.hist.made[id].temp in s.names || s.opens[id].Prepared? { WriterUnpublished(s, id, 0, sha); }
  }

  lemma ListSound(s: State, id: Id, ok: bool, sha: Sha)
    requires id in s.hist.made && UploadOk(s, id, sha) && id in s.opens && s.opens[id].Stored?
    ensures Sound(s, id, Advance(s, id, ok), sha) && WriterSound(s, id, Advance(s, id, ok))
  {
    WriterUnpublished(s, id, 0, sha);
  }

  lemma AdvanceInv(s: State, id: Id, ok: bool, sha: Sha)
    requires Inv(s, sha) && id in s.opens
    ensures var t := Apply(s, id, Advance(s, id, ok)); Inv(t, sha) && Others(s, t, id)
  {
    assert UploadOk(s, id, sha);
    if s.opens[id].Stored? {
      ListSound(s, id, ok, sha);
      ApplyInv(s, id, Advance(s, id, ok), sha);
    } else if s.opens[id].Displacing? && !HasEnded(s, s.opens[id].h) {
      ClaimInv(s, s.opens[id].h, false, sha);
    } else {
      AdvanceGood(s, id, ok, sha);
      OpenGoodInv(s, id, Advance(s, id, ok), sha);
    }
  }

  lemma ClaimInv(s: State, h: nat, abort: bool, sha: Sha)
    requires Inv(s, sha) && h < |s.handles|
    ensures var t := Apply(s, s.handles[h].id, Claim(h, s.handles[h], abort));
            Inv(t, sha) && Others(s, t, s.handles[h].id)
  {
    HandleFacts(s, h, sha);
    var m := s.hist.made[s.handles[h].id];
    ClaimGood(h, s.handles[h], m, abort, Listed(s, h), m.temp in s.names, sha);
    HandleInv(s, h, Claim(h, s.handles[h], abort), sha);
  }

  // ---- Beginnings ---------------------------------------------------------------------------

  lemma ResumeSound(s: State, id: Id, req: OpenRequest, c: Change, sha: Sha)
    requires id in s.hist.made && UploadOk(s, id, sha) && MayResume(s, id, req)
    requires c == NOTHING.(slot := Filled(if id in s.uploads then Displacing(s.uploads[id], req) else Looking(req)))
    ensures Sound(s, id, c, sha) && WriterSound(s, id, c)
  {
  }

  /** A change to removals alone. */
  ghost predicate RemovalChange(c: Change) {
    c == NOTHING.(removal := c.removal, begin := c.begin) && (c.removal.None? || c.begin.None?)
  }

  lemma RemovalOnly(s: State, t: State, sha: Sha)
    requires Inv(s, sha) && t == s.(removals := t.removals) && RemovalsOk(t)
    ensures Inv(t, sha)
  {
    assert Apart(t) && Known(t);
    forall j | j in t.hist.made ensures UploadOk(t, j, sha) {
      assert UploadOk(s, j, sha);
      UntouchedOk(s, t, j, sha);
    }
  }

  lemma RemovalIs(s: State, id: Id, c: Change)
    requires RemovalChange(c)
    ensures Apply(s, id, c) == s.(removals := NewRemovals(s, id, c))
  {
  }

  lemma RemovalAlone(s: State, id: Id, c: Change, sha: Sha)
    requires Inv(s, sha) && RemovalChange(c) && RemovalsMove(s, id, c)
    ensures Inv(Apply(s, id, c), sha)
  {
    RemovalIs(s, id, c);
    TempNames(s, sha);
    assert RemovalsOk(s);
    ApplyRemovals(s, id, c);
    RemovalOnly(s, Apply(s, id, c), sha);
  }

  lemma RemovalOthers(s: State, id: Id, c: Change)
    requires RemovalChange(c) && RemovalsMove(s, id, c)
    ensures Others(s, Apply(s, id, c), id)
  {
    var t := Apply(s, id, c);
    assert t == s.(removals := t.removals);
  }

  lemma BeginInv(s: State, e: Event, sha: Sha)
    requires Inv(s, sha) && (e.SeeExpired? || e.CancelToken? || e.CancelResource?)
    ensures var t := Apply(s, e.id, ChangeOf(s, e, sha)); Inv(t, sha) && Others(s, t, e.id)
  {
    var c := ChangeOf(s, e, sha);
    if e.id in s.hist.made { assert UploadOk(s, e.id, sha); }
    assert RemovalChange(c);
    RemovalAlone(s, e.id, c, sha);
    RemovalOthers(s, e.id, c);
  }

  // ---- Removals -----------------------------------------------------------------------------

  /** An unlink or a deletion by a removal: what it is about stays in order. */
  lemma RemoveSound(s: State, i: nat, ok: bool, sha: Sha)
    requires i < |s.removals| && s.removals[i].id in s.hist.made
    requires UploadOk(s, s.removals[i].id, sha) && RemovalOk(s, s.removals[i])
    requires s.removals[i].stage.Unlinking? || s.removals[i].stage.Erasing?
    ensures var id := s.removals[i].id; var c := Remove(s, i, ok);
            Sound(s, id, c, sha) && WriterSound(s, id, c) && RemovalsMove(s, id, c)
  {
    OpenKept(s, s.removals[i].id, Remove(s, i, ok));
  }

  lemma RemoveMoves(s: State, i: nat, ok: bool, sha: Sha)
    requires Inv(s, sha) && i < |s.removals|
    requires s.removals[i].stage.Testing? || s.removals[i].stage.LookingUp? || s.removals[i].stage.Answered?
             || (s.removals[i].stage.Aborting? && HasEnded(s, s.removals[i].stage.h))
    ensures RemovalChange(Remove(s, i, ok)) && RemovalsMove(s, s.removals[i].id, Remove(s, i, ok))
  {
    assert RemovalOk(s, s.removals[i]);
    if s.removals[i].id in s.store { assert UploadOk(s, s.removals[i].id, sha); }
  }

  lemma RemoveInv(s: State, i: nat, ok: bool, sha: Sha)
    requires Inv(s, sha) && i < |s.removals|
    ensures var id := s.removals[i].id; var t := Apply(s, id, Remove(s, i, ok)); Inv(t, sha) && Others(s, t, id)
  {
    var id, stage := s.removals[i].id, s.removals[i].stage;
    assert RemovalOk(s, s.removals[i]);
    if stage.Aborting? && !HasEnded(s, stage.h) {
      ClaimInv(s, stage.h, true, sha);
    } else if stage.Unlinking? || stage.Erasing? {
      assert UploadOk(s, id, sha);
      RemoveSound(s, i, ok, sha);
      ApplyInv(s, id, Remove(s, i, ok), sha);
    } else {
      RemoveMoves(s, i, ok, sha);
      RemovalAlone(s, id, Remove(s, i, ok), sha);
      RemovalOthers(s, id, Remove(s, i, ok));
    }
  }
}
