/** When an open with a resume token goes on with an upload, and from where. */
module UploadResumes {
  import opened Prelude
  import opened UploadState
  import opened UploadMachine
  import opened UploadInvariant
  import opened UploadScripts
  import opened UploadCalls

  /** The record is there for this target and size, and its file has its name. */
  predicate Findable(s: State, id: Id, req: OpenRequest) {
    && id in s.store && s.store[id].path == req.target && s.store[id].size == req.size
    && s.store[id].temp in s.names
  }

  /** The record is there, but not its file. */
  predicate Lost(s: State, id: Id, req: OpenRequest) {
    && id in s.store && s.store[id].path == req.target && s.store[id].size == req.size
    && s.store[id].temp !in s.names
  }

  /** The name of the record's file leads to a file with all bytes up to the recorded offset. */
  predicate Backed(s: State, id: Id) {
    id in s.store && s.store[id].temp in s.names ==>
      var ino := s.names[s.store[id].temp];
      ino in s.inodes && s.store[id].offset <= |s.inodes[ino]|
  }

  /**
   Handle `h` is the active one of the upload, in `req`'s hands, with `bytes` hashed and in the file of `rec`; the
   record is renewed for another 15 minutes, and saved.
   */
  predicate GoesOn(t: State, h: nat, id: Id, req: OpenRequest, rec: Record, bytes: seq<byte>) {
    && id in t.uploads && t.uploads[id] == h && h < |t.handles|
    && rec.temp in t.names && t.names[rec.temp] in t.inodes && t.inodes[t.names[rec.temp]] == bytes
    && (var u := t.handles[h];
        && u.id == id && u.path == req.target && u.temp == rec.temp && u.overwrite == rec.overwrite
        && u.owner == req.owner && u.size == req.size
        && u.file == Some(t.names[rec.temp]) && u.hashed == bytes && u.offset == |bytes|
        && !u.completed && u.closing.Running? && u.work.Idle?)
    && Get(t.store, id) == Get(t.saved, id)
    && Get(t.store, id) == Some(rec.(offset := |bytes|, owner := req.owner, expiresAt := req.now + 900_000_000_000))
  }

  // ---- From the store lookup on -------------------------------------------------------------

  lemma LookFinds(s: State, id: Id, req: OpenRequest)
    requires id in s.opens && s.opens[id] == Looking(req)
    ensures var t := Advanced(s, id, true);
            && t.store == s.store && t.names == s.names && t.inodes == s.inodes
            && t.handles == s.handles && t.uploads == s.uploads
            && if id in s.store && s.store[id].path == req.target && s.store[id].size == req.size
               then id in t.opens && t.opens[id] == Validating(s.store[id], req) else id !in t.opens
  {
  }

  lemma ValidateFinds(s: State, id: Id, rec: Record, req: OpenRequest)
    requires id in s.opens && s.opens[id] == Validating(rec, req)
    requires rec.temp in s.names ==> s.names[rec.temp] in s.inodes && rec.offset <= |s.inodes[s.names[rec.temp]]|
    ensures var t := Advanced(s, id, true);
            && t.names == s.names && t.handles == s.handles && t.uploads == s.uploads && id in t.opens
            && if rec.temp !in s.names then t.opens[id].Discarding?
               else
                 var ino := s.names[rec.temp];
                 var kept := s.inodes[ino][..rec.offset];
                 t.opens[id] == Prepared(rec, ino, kept, req) && t.inodes == s.inodes[ino := kept]
  {
  }

  lemma DiscardEnds(s: State, id: Id, ok: bool)
    requires id in s.opens && s.opens[id].Discarding?
    ensures Advanced(s, id, ok).handles == s.handles && id !in Advanced(s, id, ok).store
  {
  }

  lemma PutEnds(s: State, id: Id, ok: bool)
    requires id in s.opens && s.opens[id].Prepared?
    ensures var t, o := Advanced(s, id, ok), s.opens[id];
            && t.names == s.names && t.inodes == s.inodes && t.handles == s.handles && t.uploads == s.uploads
            && if ok then
                 && id in t.opens && t.opens[id] == Stored(o.rec, o.ino, o.hashed, o.req)
                 && Get(t.store, id) == Get(t.saved, id) == Some(Renewed(o.rec, o.req))
               else id !in t.opens
  {
  }

  lemma ListGoesOn(s: State, id: Id)
    requires id in s.opens && s.opens[id].Stored? && 0 <= s.opens[id].req.size
    requires var o := s.opens[id];
             && o.rec.temp in s.names && s.names[o.rec.temp] == o.ino && o.ino in s.inodes
             && s.inodes[o.ino] == o.hashed && |o.hashed| == o.rec.offset
             && Get(s.store, id) == Get(s.saved, id) == Some(Renewed(o.rec, o.req))
    ensures var t, o := Advanced(s, id, true), s.opens[id];
            |t.handles| == |s.handles| + 1 && GoesOn(t, |s.handles|, id, o.req, o.rec, o.hashed)
  {
  }

  lemma AttachGoesOn(s: State, id: Id, rec: Record, ino: Ino, kept: seq<byte>, req: OpenRequest, putOk: bool)
    requires id in s.opens && s.opens[id] == Prepared(rec, ino, kept, req) && 0 <= req.size
    requires rec.temp in s.names && s.names[rec.temp] == ino && ino in s.inodes
    requires s.inodes[ino] == kept && |kept| == rec.offset
    ensures var t := AttachThrough(s, id, putOk);
            if putOk then |t.handles| == |s.handles| + 1 && GoesOn(t, |s.handles|, id, req, rec, kept)
            else t.handles == s.handles
  {
    PutEnds(s, id, putOk);
    if putOk { ListGoesOn(Advanced(s, id, true), id); }
  }

  lemma LookGoesOn(s: State, id: Id, req: OpenRequest, putOk: bool)
    requires id in s.opens && s.opens[id] == Looking(req) && 0 <= req.size && Backed(s, id)
    ensures var t := LookThrough(s, id, putOk);
            if Findable(s, id, req) && putOk then
              var rec := s.store[id];
              && |t.handles| == |s.handles| + 1
              && GoesOn(t, |s.handles|, id, req, rec, s.inodes[s.names[rec.temp]][..rec.offset])
            else t.handles == s.handles
    ensures Lost(s, id, req) ==> id !in LookThrough(s, id, putOk).store
  {
    LookFinds(s, id, req);
    var t := Advanced(s, id, true);
    if id in t.opens {
      var rec := s.store[id];
      ValidateFinds(t, id, rec, req);
      var r := Advanced(t, id, true);
      if rec.temp in s.names {
        var ino := s.names[rec.temp];
        AttachGoesOn(r, id, rec, ino, s.inodes[ino][..rec.offset], req, putOk);
      } else {
        DiscardEnds(r, id, putOk);
      }
    }
  }

  // ---- The takeover -------------------------------------------------------------------------

  /** The handle has ended, off the table; its record, if any, is now at its offset, for 15 minutes. */
  predicate LetsGo(s: State, t: State, h: nat, now: int, ok: bool)
    requires h < |s.handles|
  {
    var u := s.handles[h];
    && |t.handles| == |s.handles| && HasEnded(t, h) && t.opens == s.opens
    && t.names == s.names && t.inodes == s.inodes && t.uploads == s.uploads - {u.id}
    && t.store == (if u.id !in s.store then s.store
                   else s.store[u.id := s.store[u.id].(offset := u.offset, expiresAt := now + 900_000_000_000)])
    && t.saved == if u.id in s.store && ok then t.store else s.saved
  }

  /** A listed handle with no frame and no stop under way. */
  predicate Closable(s: State, h: nat) {
    && h < |s.handles| && Listed(s, h)
    && var u := s.handles[h]; u.work.Idle? && u.closing.Running? && !u.completed
  }

  lemma CloseHandsOver(s: State, h: nat, now: int, ok: bool)
    requires Closable(s, h)
    ensures LetsGo(s, CloseThrough(s, h, now, ok), h, now, ok)
  {
    var u := s.handles[h];
    var c := Claimed(s, h, false);
    assert c.handles[h] == u.(closing := Stopping(false, Waiting));
    UnderLockIsStep(c, h, now);
    EndsFromLock(s, Stopped(c, h, now, true), h, now, ok);
  }

  lemma EndsFromLock(s: State, t: State, h: nat, now: int, ok: bool)
    requires h < |s.handles| && Listed(s, h)
    requires var u := s.handles[h];
             var stage := if u.id !in s.store then Unlisting
                          else Saving(s.store[u.id].(offset := u.offset, expiresAt := now + 900_000_000_000));
             && |t.handles| == |s.handles| && t.handles[h].id == u.id && t.handles[h].closing == Stopping(false, stage)
             && t.store == s.store && t.uploads == s.uploads && t.opens == s.opens
             && t.names == s.names && t.inodes == s.inodes && t.saved == s.saved
    ensures var r := if t.handles[h].closing.stage.Saving? then Stopped(Stopped(t, h, now, ok), h, now, true)
                     else Stopped(t, h, now, true);
            LetsGo(s, r, h, now, ok)
  {
  }

  // ---- The whole resume ---------------------------------------------------------------------

  lemma ResumeIsNoted(s: State, id: Id, req: OpenRequest)
    ensures var t := Resumed(s, id, req);
            && t.store == s.store && t.names == s.names && t.inodes == s.inodes
            && t.handles == s.handles && t.uploads == s.uploads
            && id in t.opens && t.opens[id] == if id in s.uploads then Displacing(s.uploads[id], req) else Looking(req)
  {
  }

  lemma TakeoverEnds(s: State, id: Id, h: nat, req: OpenRequest)
    requires id in s.opens && s.opens[id] == Displacing(h, req) && HasEnded(s, h)
    ensures var t := Advanced(s, id, true);
            && t.store == s.store && t.names == s.names && t.inodes == s.inodes
            && t.handles == s.handles && id in t.opens && t.opens[id] == Looking(req)
  {
  }

  /** An active handle of the upload takes frames and nobody stops it; all its bytes are in the file. */
  predicate ReadyToYield(s: State, id: Id) {
    id in s.uploads ==>
      && s.uploads[id] < |s.handles|
      && var u := s.handles[s.uploads[id]];
         && u.id == id && u.work.Idle? && u.closing.Running? && !u.completed
         && (id in s.store && s.store[id].temp in s.names ==>
               var ino := s.names[s.store[id].temp]; ino in s.inodes && u.offset == |s.inodes[ino]|)
  }

  /** Where the resume goes on: where the active handle stands, or else at the recorded offset. */
  function ResumeOffset(s: State, id: Id): nat
    requires id in s.store && (id in s.uploads ==> s.uploads[id] < |s.handles|)
  {
    if id in s.uploads then s.handles[s.uploads[id]].offset else s.store[id].offset
  }

  lemma ResumeGoesOn(s: State, id: Id, req: OpenRequest, closeOk: bool, putOk: bool)
    requires 0 <= req.size && Backed(s, id) && ReadyToYield(s, id)
    ensures var t := ResumeThrough(s, id, req, closeOk, putOk);
            if Findable(s, id, req) && putOk then
              var rec, offset := s.store[id], ResumeOffset(s, id);
              && |t.handles| == |s.handles| + 1 && offset <= |s.inodes[s.names[rec.temp]]|
              && GoesOn(t, |s.handles|, id, req, rec, s.inodes[s.names[rec.temp]][..offset])
            else |t.handles| == |s.handles|
    ensures Lost(s, id, req) ==> id !in ResumeThrough(s, id, req, closeOk, putOk).store
  {
    var t := Resumed(s, id, req);
    ResumeIsNoted(s, id, req);
    if id !in s.uploads {
      LookGoesOn(t, id, req, putOk);
    } else {
      var h := s.uploads[id];
      CloseHandsOver(t, h, req.now, closeOk);
      var r := CloseThrough(t, h, req.now, closeOk);
      TakeoverEnds(r, id, h, req);
      LookGoesOn(Advanced(r, id, true), id, req, putOk);
    }
  }

  // ---- The whole open -----------------------------------------------------------------------

  /** The invariant gives what a resume needs. */
  lemma InvBacks(s: State, id: Id, sha: Sha)
    requires Inv(s, sha)
    ensures Backed(s, id)
  {
    if id in s.store { assert UploadOk(s, id, sha); }
  }

  /** Nobody else holds a guard or the lock of the active handle. */
  predicate Unhindered(s: State, id: Id) {
    id in s.uploads ==>
      && s.uploads[id] < |s.handles|
      && s.handles[s.uploads[id]].work.Idle? && s.handles[s.uploads[id]].closing.Running?
  }

  lemma InvYields(s: State, id: Id, sha: Sha)
    requires Inv(s, sha) && Unhindered(s, id)
    ensures ReadyToYield(s, id)
  {
    if id in s.uploads {
      var m := s.hist.made[id];
      assert UploadOk(s, id, sha);
      assert HandleOk(s.handles[s.uploads[id]], m, Listed(s, s.uploads[id]), m.temp in s.names, sha);
    }
  }

  /** The expiry pass leaves the record. */
  predicate Survives(s: State, id: Id, now: int) {
    id in s.store && (id in s.uploads || now < s.store[id].expiresAt)
  }

  lemma PassLeaves(s: State, now: int, order: seq<Id>, saves: Saves, id: Id)
    requires forall j :: j in order <==> j in s.store
    ensures var p := ExpireList(s, now, order, saves);
            && p.uploads == s.uploads && p.handles == s.handles && p.inodes == s.inodes
            && (id in p.store <==> Survives(s, id, now)) && (id in p.store ==> p.store[id] == s.store[id])
  {
    PassDropsExpired(s, now, order, saves);
  }

  lemma OthersTempsDiffer(s: State, now: int, order: seq<Id>, id: Id, sha: Sha)
    requires Inv(s, sha) && Survives(s, id, now)
    ensures s.store[id].temp !in DroppedTemps(s, now, order)
  {
    forall j | j in order && Drops(s, now, j) ensures s.store[j].temp != s.store[id].temp {
      assert UploadOk(s, j, sha) && UploadOk(s, id, sha);
      if s.store[j].temp == s.store[id].temp { assert Overlap(s.hist.made[j], s.hist.made[id]); }
    }
  }

  lemma PassLeavesName(s: State, now: int, order: seq<Id>, saves: Saves, id: Id, sha: Sha)
    requires Inv(s, sha) && Survives(s, id, now) && Distinct(order)
    ensures Get(ExpireList(s, now, order, saves).names, s.store[id].temp) == Get(s.names, s.store[id].temp)
  {
    PassUnlinksExpired(s, now, order, saves);
    OthersTempsDiffer(s, now, order, id, sha);
  }

  /** No active handle of the upload has the owner that asks. */
  predicate OthersIfAny(s: State, id: Id, req: OpenRequest) {
    id in s.uploads && s.uploads[id] < |s.handles| ==> s.handles[s.uploads[id]].owner != req.owner
  }

  /** The record will be there, for this target and size, with its file, and no active handle has this owner. */
  predicate CanResume(s: State, id: Id, req: OpenRequest) {
    Survives(s, id, req.now) && Findable(s, id, req) && OthersIfAny(s, id, req)
  }

  lemma FileIsAccepted(s: State, id: Id, sha: Sha)
    requires Inv(s, sha) && id in s.store && s.store[id].temp in s.names
    ensures id in s.hist.made && s.names[s.store[id].temp] in s.inodes
    ensures s.inodes[s.names[s.store[id].temp]] == s.hist.made[id].fed
  {
    assert UploadOk(s, id, sha);
  }

  /** The state after the pass, as far as the resume is concerned. */
  predicate AfterPass(s: State, p: State, id: Id, req: OpenRequest) {
    && p.uploads == s.uploads && p.handles == s.handles && p.inodes == s.inodes
    && Backed(p, id) && ReadyToYield(p, id)
    && (id in p.store <==> Survives(s, id, req.now))
    && (id in p.store ==>
          p.store[id] == s.store[id] && Get(p.names, s.store[id].temp) == Get(s.names, s.store[id].temp))
  }

  lemma OpenAfterPass(s: State, id: Id, req: OpenRequest, order: seq<Id>, saves: Saves, sha: Sha)
    requires Inv(s, sha) && Unhindered(s, id) && Distinct(order) && (forall j :: j in order <==> j in s.store)
    ensures AfterPass(s, ExpireList(s, req.now, order, saves), id, req)
  {
    PassLeaves(s, req.now, order, saves, id);
    InvBacks(s, id, sha);
    InvYields(s, id, sha);
    if Survives(s, id, req.now) { PassLeavesName(s, req.now, order, saves, id, sha); }
  }

  /** Where the upload goes on, and with what; a record whose file is lost is dropped. */
  ghost predicate Outcome(s: State, t: State, id: Id, req: OpenRequest, putOk: bool) {
    && (Survives(s, id, req.now) && Lost(s, id, req) && OthersIfAny(s, id, req) ==> id !in t.store)
    && if CanResume(s, id, req) && putOk then
         && |t.handles| == |s.handles| + 1
         && id in s.hist.made && (id in s.uploads ==> s.uploads[id] < |s.handles|)
         && ResumeOffset(s, id) <= |s.hist.made[id].fed|
         && GoesOn(t, |s.handles|, id, req, s.store[id], s.hist.made[id].fed[..ResumeOffset(s, id)])
       else |t.handles| == |s.handles|
  }

  lemma PassThenResume(s: State, p: State, id: Id, req: OpenRequest, closeOk: bool, putOk: bool, fed: seq<byte>)
    requires AfterPass(s, p, id, req) && 0 <= req.size
    requires OthersIfAny(s, id, req)
    requires CanResume(s, id, req) ==>
               && id in s.hist.made && fed == s.hist.made[id].fed
               && s.names[s.store[id].temp] in s.inodes && s.inodes[s.names[s.store[id].temp]] == fed
    ensures Outcome(s, ResumeThrough(p, id, req, closeOk, putOk), id, req, putOk)
  {
    ResumeGoesOn(p, id, req, closeOk, putOk);
  }

  lemma TokenOpens(s: State, id: Id, req: OpenRequest, order: seq<Id>, saves: Saves, closeOk: bool, putOk: bool)
    requires (forall j :: j in s.uploads ==> s.uploads[j] < |s.handles|) && 0 <= req.size && req.resume == FromToken(id)
    requires AfterPass(s, ExpireList(s, req.now, order, saves), id, req)
    ensures var p := ExpireList(s, req.now, order, saves);
            OpenThrough(s, req, order, saves, closeOk, putOk) ==
              if id in s.uploads && s.handles[s.uploads[id]].owner == req.owner then p
              else ResumeThrough(p, id, req, closeOk, putOk)
  {
  }

  /**
   An open with a token adds a handle exactly if the upload can be resumed and the store can be saved. The handle is
   then the active one and goes on from the accepted bytes.
   */
  lemma OpenGoesOn(s: State, id: Id, req: OpenRequest, order: seq<Id>, saves: Saves, closeOk: bool, putOk: bool,
                   sha: Sha)
    requires Inv(s, sha) && Distinct(order) && (forall j :: j in order <==> j in s.store)
    requires 0 <= req.size && req.resume == FromToken(id) && (forall j :: j in s.uploads ==> s.uploads[j] < |s.handles|)
    requires Unhindered(s, id)
    ensures Outcome(s, OpenThrough(s, req, order, saves, closeOk, putOk), id, req, putOk)
  {
    var p := ExpireList(s, req.now, order, saves);
    OpenAfterPass(s, id, req, order, saves, sha);
    TokenOpens(s, id, req, order, saves, closeOk, putOk);
    if !(id in s.uploads && s.handles[s.uploads[id]].owner == req.owner) {
      if CanResume(s, id, req) { FileIsAccepted(s, id, sha); }
      PassThenResume(s, p, id, req, closeOk, putOk, if id in s.hist.made then s.hist.made[id].fed else []);
    }
  }
}
