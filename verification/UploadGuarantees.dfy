/**
 What every interleaving of uploads guarantees, as long as no upload targets a temporary name and opens of
 one do not overlap.
 */
module UploadGuarantees {
  import opened Prelude
  import opened UploadState
  import opened UploadMachine
  import opened UploadInvariant
  import opened UploadRuns

  /** Every publish installs exactly `size` bytes, the accepted ones, with the digest the client declared. */
  lemma EveryPublishIsExact(events: seq<Event>, sha: Sha, i: nat)
    requires AllPolite(events) && i < |Run(events, sha).hist.published|
    ensures var s := Run(events, sha);
            var p := s.hist.published[i];
            && |p.bytes| == p.size && sha(p.bytes) == p.digest
            && p.id in s.hist.made && p.bytes == s.hist.made[p.id].fed && p.size == s.hist.made[p.id].size
  {
    RunInv(events, sha);
    var s := Run(events, sha);
    var p := s.hist.published[i];
    assert UploadOk(s, p.id, sha);
  }

  /** No upload, and so no handle, publishes twice. */
  lemma PublishesAtMostOnce(events: seq<Event>, sha: Sha, i: nat, j: nat)
    requires AllPolite(events) && i < j < |Run(events, sha).hist.published|
    ensures var published := Run(events, sha).hist.published;
            published[i].id != published[j].id && published[i].handle != published[j].handle
  {
    RunInv(events, sha);
    var s := Run(events, sha);
    assert UploadOk(s, s.hist.published[i].id, sha) && UploadOk(s, s.hist.published[j].id, sha);
  }

  /**
   While a handle has its file open, the file holds exactly what was hashed, up to the offset, no other
   handle of the upload is open, and every record of the upload, stored or saved, is at or before that
   offset. This holds whatever overlaps.
   */
  lemma OpenFileIsExact(events: seq<Event>, sha: Sha, h: nat)
    requires AllPolite(events)
    ensures var s := Run(events, sha);
            h < |s.handles| && s.handles[h].file.Some? ==>
              var u := s.handles[h];
              && u.file.value in s.inodes && s.inodes[u.file.value] == u.hashed && |u.hashed| == u.offset <= u.size
              && (u.temp in s.names ==> s.names[u.temp] == u.file.value)
              && (u.id in s.store ==> s.store[u.id].offset <= u.offset)
              && (u.id in s.saved ==> s.saved[u.id].offset <= u.offset)
              && (forall g :: 0 <= g < |s.handles| && g != h && s.handles[g].id == u.id ==> s.handles[g].file.None?)
  {
    RunInv(events, sha);
    if h < |Run(events, sha).handles| && Run(events, sha).handles[h].file.Some? {
      OpenFileFacts(Run(events, sha), h, sha);
    }
  }

  lemma OpenFileFacts(s: State, h: nat, sha: Sha)
    requires Inv(s, sha) && h < |s.handles| && s.handles[h].file.Some?
    ensures var u := s.handles[h];
            && u.file.value in s.inodes && s.inodes[u.file.value] == u.hashed && |u.hashed| == u.offset <= u.size
            && (u.temp in s.names ==> s.names[u.temp] == u.file.value)
            && (u.id in s.store ==> s.store[u.id].offset <= u.offset)
            && (u.id in s.saved ==> s.saved[u.id].offset <= u.offset)
            && (forall g :: 0 <= g < |s.handles| && g != h && s.handles[g].id == u.id ==> s.handles[g].file.None?)
  {
    var m := s.hist.made[s.handles[h].id];
    assert UploadOk(s, s.handles[h].id, sha);
    assert HandleOk(s.handles[h], m, Listed(s, h), m.temp in s.names, sha);
    forall g | 0 <= g < |s.handles| && g != h && s.handles[g].id == s.handles[h].id ensures s.handles[g].file.None? {
      assert HandleOk(s.handles[g], m, Listed(s, g), m.temp in s.names, sha);
    }
  }

  /** A resume that finds the temporary file goes on from the recorded offset with the accepted bytes before it. */
  lemma ResumeKeepsPrefix(events: seq<Event>, sha: Sha, id: Id, ok: bool)
    requires AllPolite(events)
    requires var s := Run(events, sha); id in s.opens && s.opens[id].Validating? && s.opens[id].rec.temp in s.names
    ensures var s := Run(events, sha); var rec, t := s.opens[id].rec, Step(s, OpenNext(id, ok), sha);
            && id in s.hist.made && rec.offset <= |s.hist.made[id].fed|
            && id in t.opens && t.opens[id].Prepared? && t.opens[id].hashed == s.hist.made[id].fed[..rec.offset]
            && t.opens[id].ino in t.inodes && t.inodes[t.opens[id].ino] == t.opens[id].hashed
  {
    RunInv(events, sha);
    PrefixKept(Run(events, sha), id, ok, sha);
  }

  lemma PrefixKept(s: State, id: Id, ok: bool, sha: Sha)
    requires Inv(s, sha) && id in s.opens && s.opens[id].Validating? && s.opens[id].rec.temp in s.names
    ensures var rec, t := s.opens[id].rec, Step(s, OpenNext(id, ok), sha);
            && id in s.hist.made && rec.offset <= |s.hist.made[id].fed|
            && id in t.opens && t.opens[id].Prepared? && t.opens[id].hashed == s.hist.made[id].fed[..rec.offset]
            && t.opens[id].ino in t.inodes && t.inodes[t.opens[id].ino] == t.opens[id].hashed
  {
    RecordedFile(s, id, sha);
    FileIsCut(s, id, s.hist.made[id].fed, ok, sha);
  }

  lemma RecordedFile(s: State, id: Id, sha: Sha)
    requires Inv(s, sha) && id in s.opens && s.opens[id].Validating? && s.opens[id].rec.temp in s.names
    ensures id in s.hist.made && s.opens[id].rec.offset <= |s.hist.made[id].fed|
    ensures Content(s, s.opens[id].rec.temp) == Some(s.hist.made[id].fed)
  {
    assert UploadOk(s, id, sha);
  }

  lemma FileIsCut(s: State, id: Id, fed: seq<byte>, ok: bool, sha: Sha)
    requires id in s.opens && s.opens[id].Validating?
    requires s.opens[id].rec.offset <= |fed| && Content(s, s.opens[id].rec.temp) == Some(fed)
    ensures var rec, t := s.opens[id].rec, Step(s, OpenNext(id, ok), sha);
            && id in t.opens && t.opens[id].Prepared? && t.opens[id].hashed == fed[..rec.offset]
            && t.opens[id].ino in t.inodes && t.inodes[t.opens[id].ino] == t.opens[id].hashed
  {
  }

  // ---- Takeovers ----------------------------------------------------------------------------

  predicate ByAnother(handles: seq<Upload>, o: Opening) {
    o.Displacing? ==> o.h < |handles| && handles[o.h].owner != o.req.owner
  }

  ghost predicate AllByAnother(s: State) {
    forall id :: id in s.opens ==> ByAnother(s.handles, s.opens[id])
  }

  /** The change leaves owners alone and begins takeovers by others only. */
  predicate KeepsOwners(s: State, c: Change) {
    && (c.handle.Some? && c.handle.value.h < |s.handles| ==>
          c.handle.value.u.owner == s.handles[c.handle.value.h].owner)
    && (c.slot.Filled? ==> ByAnother(s.handles, c.slot.opening))
  }

  lemma OwnersByChange(s: State, id: Id, c: Change)
    requires AllByAnother(s) && KeepsOwners(s, c)
    ensures AllByAnother(Apply(s, id, c))
  {
  }

  predicate OwnerKept(h: nat, u: Upload, c: Change) {
    c.slot.Same? && (c.handle.Some? ==> c.handle.value.h == h && c.handle.value.u.owner == u.owner)
  }

  lemma FramesKeepOwner(h: nat, u: Upload, content: seq<byte>, stored: Option<Record>, offset: int, raw: seq<byte>,
                        now: int, taken: bool, size: int, digest: Digest, sha: Sha)
    ensures OwnerKept(h, u, Feed(h, u, content, stored, offset, raw, now))
    ensures OwnerKept(h, u, Finish(h, u, taken, size, digest, sha))
  {
  }

  lemma WorkKeepsOwner(h: nat, u: Upload, content: Option<seq<byte>>, listed: bool, ok: bool)
    ensures OwnerKept(h, u, Proceed(h, u, content, listed, ok))
  {
  }

  lemma StopKeepsOwner(h: nat, u: Upload, stored: Option<Record>, listed: bool, now: int, ok: bool)
    ensures OwnerKept(h, u, Stop(h, u, stored, listed, now, ok)) && OwnerKept(h, u, Claim(h, u, false))
  {
  }

  lemma HandleKeepsOwner(s: State, e: Event, sha: Sha)
    requires OfHandle(e) && Possible(s, e)
    ensures KeepsOwners(s, HandleChange(s, e, sha))
  {
    var h, u := e.h, s.handles[e.h];
    var stored := Get(s.store, u.id);
    match e
    case DataFrame(_, offset, raw, now) =>
      var content := if u.file.Some? && u.file.value in s.inodes then s.inodes[u.file.value] else [];
      FramesKeepOwner(h, u, content, stored, offset, raw, now, false, 0, [], sha);
    case FinishFrame(_, size, digest) =>
      FramesKeepOwner(h, u, [], stored, 0, [], 0, u.path in s.names, size, digest, sha);
    case WorkNext(_, ok) => WorkKeepsOwner(h, u, Content(s, u.temp), Listed(s, h), ok);
    case CloseHandle(_) => StopKeepsOwner(h, u, stored, false, 0, true);
    case StopNext(_, now, ok) => StopKeepsOwner(h, u, stored, Listed(s, h), now, ok);
  }

  lemma OtherKeepsOwners(s: State, e: Event, sha: Sha)
    requires Ordinary(e) && Possible(s, e) && !OfHandle(e) && AllByAnother(s)
    requires forall id :: id in s.uploads ==> s.uploads[id] < |s.handles|
    ensures KeepsOwners(s, ChangeOf(s, e, sha))
  {
  }

  lemma TableInRange(s: State, sha: Sha)
    requires Inv(s, sha)
    ensures forall id :: id in s.uploads ==> s.uploads[id] < |s.handles|
  {
    forall id | id in s.uploads ensures s.uploads[id] < |s.handles| { assert UploadOk(s, id, sha); }
  }

  lemma OrdinaryByAnother(s: State, e: Event, sha: Sha)
    requires AllByAnother(s) && Ordinary(e) && (forall id :: id in s.uploads ==> s.uploads[id] < |s.handles|)
    ensures AllByAnother(Step(s, e, sha))
  {
    if Possible(s, e) {
      if OfHandle(e) {
        HandleKeepsOwner(s, e, sha);
      } else {
        OtherKeepsOwners(s, e, sha);
      }
      OwnersByChange(s, Subject(s, e), ChangeOf(s, e, sha));
    }
  }

  lemma ElseByAnother(s: State, e: Event, sha: Sha)
    requires AllByAnother(s) && !Ordinary(e)
    ensures AllByAnother(Step(s, e, sha))
  {
  }

  /** An active upload is only ever taken over by another owner than its own. */
  lemma {:induction false} TakeoverIsByAnother(events: seq<Event>, sha: Sha)
    requires AllPolite(events)
    ensures AllByAnother(Run(events, sha))
  {
    if events != [] {
      var front, e := events[..|events| - 1], events[|events| - 1];
      TakeoverIsByAnother(front, sha);
      if Ordinary(e) {
        TableInRange(Run(front, sha), sha) by { RunInv(front, sha); }
        OrdinaryByAnother(Run(front, sha), e, sha);
      } else {
        ElseByAnother(Run(front, sha), e, sha);
      }
    }
  }
}
