/**
 The upload half of access/files/transfer_service.go as the program writes it: an object whose maps and
 handles the operations change in place. Each piece between two points where another operation can come
 in is a method that makes exactly one step of `UploadMachine`; the operations are sequences of these.
 */
module UploadService {
  import opened Prelude
  import opened UploadState
  import opened UploadMachine
  import opened UploadScripts
  import opened UploadCalls
  import opened UploadInvariant
  import opened UploadResumes

  class Service {
    var store: map<Id, Record>
    var saved: map<Id, Record>
    var names: map<Path, Ino>
    var inodes: map<Ino, seq<byte>>
    var uploads: map<Id, nat>
    var handles: seq<Upload>
    ghost var opens: map<Id, Opening>
    ghost var removals: seq<Removal>
    ghost var hist: History

    ghost function View(): State
      reads this
    {
      State(store, saved, names, inodes, uploads, handles, opens, removals, hist)
    }

    constructor ()
      ensures View() == INITIAL
    {
      store, saved, names, inodes, uploads, handles := map[], map[], map[], map[], map[], [];
      opens, removals, hist := map[], [], History(map[], []);
    }

    /** The ghost fields follow the others to the machine's next state. */
    ghost method Follow(t: State)
      requires store == t.store && saved == t.saved && names == t.names
      requires inodes == t.inodes && uploads == t.uploads && handles == t.handles
      modifies this`opens, this`removals, this`hist
      ensures View() == t
    {
      opens, removals, hist := t.opens, t.removals, t.hist;
    }

    // ---- The transfer store and the table of active uploads ----------------------------------

    method PutRecord(id: Id, record: Record, ok: bool)
      modifies this`store, this`saved
      ensures store == old(store)[id := record] && saved == if ok then store else old(saved)
    {
      store := store[id := record];
      if ok {
        saved := store;
      }
    }

    method DeleteRecord(id: Id, ok: bool)
      modifies this`store, this`saved
      ensures store == old(store) - {id} && saved == if ok && id in old(store) then store else old(saved)
    {
      if id in store {
        store := store - {id};
        if ok {
          saved := store;
        }
      }
    }

    method RemoveUpload(h: nat)
      requires h < |handles|
      modifies this`uploads
      ensures uploads == if Listed(old(View()), h) then old(uploads) - {handles[h].id} else old(uploads)
    {
      if handles[h].id in uploads && uploads[handles[h].id] == h {
        uploads := uploads - {handles[h].id};
      }
    }

    // ---- Data frames --------------------------------------------------------------------------

    /** persist up to its store lookup: when it saves, and what it is then to store. */
    method LookupForSave(u: Upload, now: int, force: bool) returns (v: Upload, record: Option<Record>)
      ensures v == SavedAt(u, now, force) && record == Persisted(Get(store, u.id), u, now, force)
    {
      if !force && u.lastSave.Some? && now - u.lastSave.value < PERSIST_INTERVAL {
        return u, None;
      }
      if u.id !in store {
        return u.(lastSave := Some(now)), None;
      }
      return u.(lastSave := Some(now)), Some(store[u.id].(offset := u.offset, expiresAt := now + RESUME_TTL));
    }

    /** The frame up to the lookup of persist: what persist is then to store, if anything. */
    method WriteChunk(h: nat, offset: int, raw: seq<byte>, now: int) returns (accepted: bool, record: Option<Record>)
      requires h < |handles| && handles[h].work.Idle?
      modifies this
      ensures View() == Fed(old(View()), h, offset, raw, now)
      ensures accepted <==> DataAccepted(old(handles[h]), offset, raw)
      ensures h < |handles| && (record.Some? ==> handles[h].work == Putting(record.value))
      ensures record.None? ==> handles[h].work.Idle?
    {
      var u := handles[h];
      if offset != u.offset || |raw| == 0 || |raw| > CHUNK_LIMIT || u.offset + |raw| > u.size || u.file.None? {
        RefusedChunk(View(), h, offset, raw, now);
        return false, None;
      }
      accepted := true;
      record := AppendChunk(h, raw, now);
    }

    method AppendChunk(h: nat, raw: seq<byte>, now: int) returns (record: Option<Record>)
      requires h < |handles| && handles[h].work.Idle? && DataAccepted(handles[h], handles[h].offset, raw)
      modifies this
      ensures View() == Fed(old(View()), h, old(handles[h]).offset, raw, now)
      ensures h < |handles| && (record.Some? ==> handles[h].work == Putting(record.value))
      ensures record.None? ==> handles[h].work.Idle?
    {
      ghost var t := Fed(View(), h, handles[h].offset, raw, now);
      var u, ino := handles[h], handles[h].file.value;
      inodes := inodes[ino := WriteAt(if ino in inodes then inodes[ino] else [], u.offset, raw)];
      u, record := LookupForSave(u.(hashed := u.hashed + raw, offset := u.offset + |raw|), now, false);
      handles := handles[h := u.(work := if record.Some? then Putting(record.value) else Idle)];
      Follow(t);
    }

    /** The store update of persist. */
    method StoreOffset(h: nat, record: Record, putOk: bool)
      requires h < |handles| && handles[h].work == Putting(record)
      modifies this
      ensures View() == Worked(old(View()), h, putOk)
    {
      ghost var t := Worked(View(), h, putOk);
      PutRecord(handles[h].id, record, putOk);
      handles := handles[h := handles[h].(work := Idle)];
      Follow(t);
    }

    method HandleData(h: nat, offset: int, raw: seq<byte>, now: int, putOk: bool) returns (accepted: bool)
      requires h < |handles| && handles[h].work.Idle?
      modifies this
      ensures View() == Worked(Fed(old(View()), h, offset, raw, now), h, putOk)
      ensures var u := old(handles[h]);
              accepted <==>
                && offset == u.offset && 0 < |raw| <= 0x1_0000 && u.offset + |raw| <= u.size && u.file.Some?
      ensures !accepted ==> View() == old(View())
      ensures accepted ==> Extends(old(View()), View(), h, raw) && handles[h].work.Idle?
    {
      ghost var before := View();
      var record;
      accepted, record := WriteChunk(h, offset, raw, now);
      if record.Some? {
        StoreOffset(h, record.value, putOk);
      } else {
        IdleStays(View(), h, putOk);
      }
      if accepted {
        FedExtends(before, h, raw, now);
        WorkedExtends(before, Fed(before, h, offset, raw, now), h, raw, putOk);
      } else {
        RefusedChunk(before, h, offset, raw, now);
      }
    }

    // ---- Finish frames ------------------------------------------------------------------------

    /** Checksum, sync and close, and the existence check of publish. */
    method CheckFinish(h: nat, size: int, digest: Digest, sha: Sha) returns (renaming: bool)
      requires h < |handles| && handles[h].work.Idle?
      modifies this
      ensures View() == Finished(old(View()), h, size, digest, sha)
      ensures var u := old(handles[h]);
              renaming <==> FinishAccepted(u, size, digest, sha) && (u.overwrite || u.path !in old(names))
      ensures h < |handles| && (renaming ==> handles[h].work == Renaming(digest))
      ensures !renaming ==> handles[h].work.Idle?
      ensures names == old(names) && inodes == old(inodes)
      ensures handles[h].temp == old(handles[h]).temp && handles[h].path == old(handles[h]).path
    {
      var u := handles[h];
      if size != u.size || u.offset != u.size || digest != sha(u.hashed) || u.file.None? {
        RefusedFinish(View(), h, size, digest, sha);
        return false;
      }
      ghost var t := Finished(View(), h, size, digest, sha);
      renaming := u.overwrite || u.path !in names;
      handles := handles[h := u.(file := None, work := if renaming then Renaming(digest) else Idle)];
      Follow(t);
    }

    method RenameTemp(h: nat) returns (renamed: bool)
      requires h < |handles| && handles[h].work.Renaming?
      requires handles[h].temp in names ==> names[handles[h].temp] in inodes
      modifies this
      ensures View() == Worked(old(View()), h, true) && (renamed <==> old(handles[h]).temp in old(names))
      ensures renamed ==>
                var u := old(handles[h]);
                names == (old(names) - {u.temp})[u.path := old(names)[u.temp]]
      ensures inodes == old(inodes)
      ensures h < |handles| && (renamed ==> handles[h].work.Forgetting?) && (!renamed ==> handles[h].work.Idle?)
    {
      ghost var t := Worked(View(), h, true);
      var u := handles[h];
      renamed := u.temp in names;
      if renamed {
        names := (names - {u.temp})[u.path := names[u.temp]];
        handles := handles[h := u.(work := Forgetting)];
      } else {
        handles := handles[h := u.(work := Idle)];
      }
      Follow(t);
    }

    method ForgetRecord(h: nat, putOk: bool)
      requires h < |handles| && handles[h].work.Forgetting?
      modifies this
      ensures View() == Worked(old(View()), h, putOk) && h < |handles| && handles[h].work.Answering?
      ensures names == old(names) && inodes == old(inodes)
    {
      ghost var t := Worked(View(), h, putOk);
      DeleteRecord(handles[h].id, putOk);
      handles := handles[h := handles[h].(work := Answering)];
      Follow(t);
    }

    method SendResult(h: nat, sendOk: bool)
      requires h < |handles| && handles[h].work.Answering?
      modifies this
      ensures View() == Worked(old(View()), h, sendOk) && h < |handles| && handles[h].work.Idle?
      ensures names == old(names) && inodes == old(inodes)
    {
      ghost var t := Worked(View(), h, sendOk);
      if sendOk {
        handles := handles[h := handles[h].(work := Idle, completed := true)];
        RemoveUpload(h);
      } else {
        handles := handles[h := handles[h].(work := Idle)];
      }
      Follow(t);
    }

    method HandleFinish(h: nat, size: int, digest: Digest, sha: Sha, putOk: bool, sendOk: bool) returns (done: bool)
      requires h < |handles| && handles[h].work.Idle? && (handles[h].temp in names ==> names[handles[h].temp] in inodes)
      modifies this
      ensures View() == FinishThrough(old(View()), h, size, digest, sha, putOk, sendOk)
      ensures var u := old(handles[h]);
              done <==>
                && size == u.size == u.offset && digest == sha(u.hashed) && u.file.Some?
                && (u.overwrite || u.path !in old(names)) && u.temp in old(names) && sendOk
      ensures done ==>
                var u := old(handles[h]);
                names == (old(names) - {u.temp})[u.path := old(names)[u.temp]] && inodes == old(inodes)
    {
      var renaming := CheckFinish(h, size, digest, sha);
      if !renaming {
        IdleStaysThrice(View(), h, putOk, sendOk);
        return false;
      }
      var renamed := RenameTemp(h);
      if !renamed {
        IdleStaysTwice(View(), h, putOk, sendOk);
        return false;
      }
      ForgetRecord(h, putOk);
      SendResult(h, sendOk);
      return sendOk;
    }

    // ---- Close and abort ----------------------------------------------------------------------

    /** The once-guard: `first` if it was free. */
    method TakeGuard(h: nat, abort: bool) returns (first: bool)
      requires h < |handles|
      modifies this
      ensures |handles| == |old(handles)|
      ensures opens == old(opens) && names == old(names) && inodes == old(inodes)
      ensures View() == Claimed(old(View()), h, abort) && (first <==> old(handles[h]).closing.Running?)
      ensures removals == old(removals)
      ensures h < |handles| && (first ==> handles[h] == old(handles[h]).(closing := Stopping(abort, Waiting)))
      ensures !first ==> View() == old(View())
    {
      ghost var t := Claimed(View(), h, abort);
      first := handles[h].closing.Running?;
      if first {
        handles := handles[h := handles[h].(closing := Stopping(abort, Waiting))];
      }
      Follow(t);
    }

    /** What a Close has to save; an abort, and the Close of a completed upload, save nothing. */
    method LookupForStop(u: Upload, now: int) returns (v: Upload, record: Option<Record>)
      requires u.closing.Stopping?
      ensures v == (if u.closing.abort || u.completed then u else SavedAt(u, now, true))
      ensures record == StopRecord(u, Get(store, u.id), now)
    {
      if u.closing.abort || u.completed {
        return u, None;
      }
      v, record := LookupForSave(u, now, true);
    }

    /** What either does under the handle's lock. */
    method StopUnderLock(h: nat, now: int) returns (record: Option<Record>)
      requires h < |handles| && handles[h].closing.Stopping? && handles[h].closing.stage.Waiting?
      requires handles[h].work.Idle?
      modifies this`handles
      ensures |handles| == |old(handles)| && View() == UnderLock(old(View()), h, now)
      ensures record == StopRecord(old(handles[h]), Get(store, old(handles[h]).id), now)
      ensures var stage := if record.Some? then Saving(record.value) else Unlisting;
              handles[h].closing == Stopping(old(handles[h]).closing.abort, stage)
      ensures handles[h].id == old(handles[h]).id && handles[h].temp == old(handles[h]).temp
    {
      var u;
      u, record := LookupForStop(handles[h], now);
      var stage := if record.Some? then Saving(record.value) else Unlisting;
      handles := handles[h := u.(file := None, closing := Stopping(u.closing.abort, stage))];
    }

    method StopSave(h: nat, record: Record, now: int, putOk: bool)
      requires h < |handles| && handles[h].closing.Stopping? && handles[h].closing.stage == Saving(record)
      modifies this
      ensures |handles| == |old(handles)|
      ensures opens == old(opens) && names == old(names) && inodes == old(inodes)
      ensures View() == Stopped(old(View()), h, now, putOk)
      ensures h < |handles|
      ensures handles[h] == old(handles[h]).(closing := Stopping(old(handles[h]).closing.abort, Unlisting))
    {
      ghost var t := Stopped(View(), h, now, putOk);
      PutRecord(handles[h].id, record, putOk);
      handles := handles[h := handles[h].(closing := Stopping(handles[h].closing.abort, Unlisting))];
      Follow(t);
    }

    method StopUnlist(h: nat, now: int)
      requires h < |handles| && handles[h].closing.Stopping? && handles[h].closing.stage.Unlisting?
      modifies this
      ensures |handles| == |old(handles)|
      ensures opens == old(opens) && names == old(names) && inodes == old(inodes)
      ensures View() == Stopped(old(View()), h, now, true) && removals == old(removals)
      ensures var u := old(handles[h]);
              && h < |handles|
              && handles[h] == u.(closing := Stopping(u.closing.abort, if u.closing.abort then Removing else Ended))
    {
      ghost var t := Stopped(View(), h, now, true);
      RemoveUpload(h);
      var u := handles[h];
      handles := handles[h := u.(closing := Stopping(u.closing.abort, if u.closing.abort then Removing else Ended))];
      Follow(t);
    }

    method StopRemove(h: nat, now: int)
      requires h < |handles| && handles[h].closing.Stopping? && handles[h].closing.stage.Removing?
      modifies this
      ensures View() == Stopped(old(View()), h, now, true) && handles[h].temp !in names && removals == old(removals)
      ensures h < |handles|
      ensures handles[h] == old(handles[h]).(closing := Stopping(old(handles[h]).closing.abort, Deleting))
    {
      ghost var t := Stopped(View(), h, now, true);
      names := names - {handles[h].temp};
      handles := handles[h := handles[h].(closing := Stopping(handles[h].closing.abort, Deleting))];
      Follow(t);
    }

    method StopDelete(h: nat, now: int, putOk: bool)
      requires h < |handles| && handles[h].closing.Stopping? && handles[h].closing.stage.Deleting?
      modifies this
      ensures View() == Stopped(old(View()), h, now, putOk) && names == old(names) && removals == old(removals)
      ensures h < |handles| && handles[h] == old(handles[h]).(closing := Stopping(old(handles[h]).closing.abort, Ended))
      ensures handles[h].id !in store
    {
      ghost var t := Stopped(View(), h, now, putOk);
      DeleteRecord(handles[h].id, putOk);
      handles := handles[h := handles[h].(closing := Stopping(handles[h].closing.abort, Ended))];
      Follow(t);
    }

    /** The steps of Close; the one-time guard makes a second one a no-op. */
    method CloseOnce(h: nat, now: int, putOk: bool)
      requires h < |handles| && handles[h].work.Idle?
      requires handles[h].closing.Stopping? ==> handles[h].closing.stage.Ended?
      modifies this
      ensures |handles| == |old(handles)|
      ensures View() == CloseThrough(old(View()), h, now, putOk) && HasEnded(View(), h)
      ensures opens == old(opens) && names == old(names) && inodes == old(inodes)
    {
      var first := TakeGuard(h, false);
      if !first {
        EndedStays(View(), h, now, putOk);
        return;
      }
      UnderLockIsStep(View(), h, now);
      var record := StopUnderLock(h, now);
      if record.Some? {
        StopSave(h, record.value, now, putOk);
        StopUnlist(h, now);
      } else {
        StopUnlist(h, now);
      }
    }

    method CloseUpload(h: nat, now: int, putOk: bool)
      requires h < |handles| && handles[h].work.Idle?
      requires handles[h].closing.Stopping? ==> handles[h].closing.stage.Ended?
      modifies this
      ensures |handles| == |old(handles)|
      ensures View() == CloseThrough(old(View()), h, now, putOk) && HasEnded(View(), h)
      ensures opens == old(opens) && names == old(names) && inodes == old(inodes)
      ensures Closable(old(View()), h) ==> LetsGo(old(View()), View(), h, now, putOk)
    {
      if Closable(View(), h) { CloseHandsOver(View(), h, now, putOk); }
      CloseOnce(h, now, putOk);
    }

    method AbortAndRemove(h: nat, now: int, putOk: bool)
      requires h < |handles| && handles[h].work.Idle? && handles[h].closing.Running?
      modifies this
      ensures View() == AbortThrough(old(View()), h, now, putOk) && removals == old(removals)
      ensures old(handles[h]).id !in store && old(handles[h]).temp !in names
      ensures h < |handles| && handles[h].closing == Stopping(true, Ended) && handles[h].id == old(handles[h]).id
    {
      var _ := TakeGuard(h, true);
      UnderLockIsStep(View(), h, now);
      var _ := StopUnderLock(h, now);
      StopUnlist(h, now);
      StopRemove(h, now);
      StopDelete(h, now, putOk);
    }

    // ---- Cancel and expiry --------------------------------------------------------------------

    /** The cancel's look at the table of active uploads. */
    method FindActive(id: Id) returns (active: Option<nat>)
      modifies this
      ensures View() == TokenCancelled(old(View()), id) && active == Get(old(uploads), id)
      ensures |removals| == |old(removals)| + 1
      ensures removals[|old(removals)|] == Removal(id, if active.Some? then Aborting(active.value) else LookingUp)
    {
      ghost var t := TokenCancelled(View(), id);
      active := if id in uploads then Some(uploads[id]) else None;
      Follow(t);
    }

    method FindRecord(id: Id, ghost i: nat) returns (temp: Option<Path>)
      requires i < |removals| && removals[i] == Removal(id, LookingUp)
      modifies this
      ensures View() == Removed(old(View()), i, true)
      ensures temp == if id in old(store) then Some(old(store)[id].temp) else None
      ensures i < |removals|
      ensures removals[i] == Removal(id, if temp.Some? then Unlinking(temp.value) else Answered(false))
    {
      ghost var t := Removed(View(), i, true);
      temp := if id in store then Some(store[id].temp) else None;
      Follow(t);
    }

    /** The expiry pass's look at the table of active uploads. */
    method FindIdle(id: Id, ghost temp: Path, ghost i: nat) returns (idle: bool)
      requires i < |removals| && removals[i] == Removal(id, Testing(temp))
      modifies this
      ensures View() == Removed(old(View()), i, true) && (idle <==> id !in old(uploads))
      ensures i < |removals| && removals[i] == Removal(id, if idle then Unlinking(temp) else Answered(false))
    {
      ghost var t := Removed(View(), i, true);
      idle := id !in uploads;
      Follow(t);
    }

    method RemoveTemp(temp: Path, ghost i: nat)
      requires i < |removals| && removals[i].stage == Unlinking(temp)
      modifies this
      ensures View() == Removed(old(View()), i, true) && temp !in names
      ensures i < |removals| && removals[i] == Removal(old(removals[i]).id, Erasing)
    {
      ghost var t := Removed(View(), i, true);
      names := names - {temp};
      Follow(t);
    }

    method EraseRecord(id: Id, putOk: bool, ghost i: nat)
      requires i < |removals| && removals[i] == Removal(id, Erasing)
      modifies this
      ensures View() == Removed(old(View()), i, putOk) && id !in store && names == old(names)
    {
      ghost var t := Removed(View(), i, putOk);
      DeleteRecord(id, putOk);
      Follow(t);
    }

    /** The cancel's answer once the handle it waited for has ended. */
    ghost method Answer(i: nat, h: nat)
      requires i < |removals| && removals[i].stage == Aborting(h) && HasEnded(View(), h)
      modifies this`opens, this`removals, this`hist
      ensures View() == Removed(old(View()), i, true)
    {
      Follow(Removed(View(), i, true));
    }

    /** A cancel by resume token that nothing interrupts. */
    method CancelByToken(id: Id, now: int, putOk: bool) returns (cancelled: bool)
      requires id in uploads ==>
                 var h := uploads[id];
                 h < |handles| && handles[h].id == id && handles[h].closing.Running? && handles[h].work.Idle?
      modifies this
      ensures View() == CancelThrough(old(View()), id, now, putOk)
      ensures cancelled <==> id in old(uploads) || id in old(store)
      ensures id !in store
      ensures id in old(uploads) ==> old(handles[uploads[id]]).temp !in names
      ensures id !in old(uploads) && id in old(store) ==> old(store)[id].temp !in names
    {
      ghost var i := |removals|;
      var active := FindActive(id);
      if active.Some? {
        AbortAndRemove(active.value, now, putOk);
        Answer(i, active.value);
        return true;
      }
      var temp := FindRecord(id, i);
      if temp.None? {
        return false;
      }
      RemoveTemp(temp.value, i);
      EraseRecord(id, putOk, i);
      return true;
    }

    ghost method NoteCancel(id: Id)
      modifies this`opens, this`removals, this`hist
      ensures View() == ResourceCancelled(old(View()), id)
      ensures |removals| == |old(removals)| + 1
      ensures id in uploads ==> removals[|old(removals)|] == Removal(id, Aborting(uploads[id]))
    {
      Follow(ResourceCancelled(View(), id));
    }

    /** A cancel of an active transfer that nothing interrupts. */
    method CancelByResource(id: Id, now: int, putOk: bool) returns (cancelled: bool)
      requires id in uploads ==>
                 var h := uploads[id];
                 h < |handles| && handles[h].id == id && handles[h].closing.Running? && handles[h].work.Idle?
      modifies this
      ensures View() == ResourceCancelThrough(old(View()), id, now, putOk)
      ensures cancelled <==> id in old(uploads)
      ensures cancelled ==> id !in store && old(handles[uploads[id]]).temp !in names
      ensures !cancelled ==>
                store == old(store) && saved == old(saved) && names == old(names) && handles == old(handles)
    {
      ghost var i := |removals|;
      NoteCancel(id);
      if id !in uploads {
        return false;
      }
      var h := uploads[id];
      AbortAndRemove(h, now, putOk);
      Answer(i, h);
      return true;
    }

    /** One record of the pass: it was expired when the pass took its copy of the store. */
    method ExpireOne(id: Id, temp: Path, putOk: bool) returns (removed: bool)
      requires id in store && store[id].temp == temp
      modifies this
      ensures View() == ExpireThrough(old(View()), id, putOk)
      ensures removed <==> id !in old(uploads)
      ensures store == (if removed then old(store) - {id} else old(store))
      ensures names == (if removed then old(names) - {temp} else old(names))
      ensures uploads == old(uploads) && handles == old(handles) && inodes == old(inodes)
    {
      ghost var before, i := View(), |removals|;
      NoteExpired(id);
      removed := FindIdle(id, temp, i);
      if removed {
        RemoveTemp(temp, i);
        EraseRecord(id, putOk, i);
      }
      ExpireDrops(before, id, putOk);
    }

    ghost method NoteExpired(id: Id)
      requires id in store
      modifies this`opens, this`removals, this`hist
      ensures View() == SeenExpired(old(View()), id)
      ensures |removals| == |old(removals)| + 1 && removals[|old(removals)|] == Removal(id, Testing(store[id].temp))
    {
      Follow(SeenExpired(View(), id));
    }

    method ExpireIfDue(id: Id, record: Record, now: int, putOk: bool) returns (removed: bool)
      requires id in store && store[id] == record
      modifies this
      ensures View() == (if record.expiresAt <= now then ExpireThrough(old(View()), id, putOk) else old(View()))
      ensures removed <==> Drops(old(View()), now, id)
      ensures store == (if removed then old(store) - {id} else old(store)) && uploads == old(uploads)
    {
      if record.expiresAt > now {
        return false;
      }
      removed := ExpireOne(id, record.temp, putOk);
    }

    /** One pass over a copy of the store; each removal that could be saved is counted. */
    method PruneExpired(now: int, saves: Saves) returns (removed: nat, ghost order: seq<Id>)
      modifies this
      ensures View() == ExpireList(old(View()), now, order, saves)
      ensures Distinct(order) && (forall id :: id in order <==> id in old(store))
      ensures removed == |DroppedIds(old(View()), now, order, saves)|
    {
      ghost var before := View();
      var all := store;
      var pending := all.Keys;
      removed, order := 0, [];
      while pending != {}
        invariant Passing(before, View(), now, order, pending, removed, saves)
        decreases pending
      {
        var id :| id in pending;
        ghost var view, counted := View(), removed;
        var gone := ExpireIfDue(id, all[id], now, saves(id));
        if gone && saves(id) {
          removed := removed + 1;
        }
        PassingStep(before, view, View(), now, order, pending, counted, saves, id);
        pending := pending - {id};
        order := order + [id];
      }
    }

    // ---- Open ---------------------------------------------------------------------------------

    method MakeTemp(req: OpenRequest)
      requires 0 <= req.size
      modifies this
      ensures handles == old(handles)
      ensures View() == Created(old(View()), req)
      ensures req.newId in opens && opens[req.newId] == Prepared(NewRecord(req), req.newIno, [], req)
    {
      ghost var t := Created(View(), req);
      names := names[req.newTemp := req.newIno];
      inodes := inodes[req.newIno := []];
      Follow(t);
    }

    /** The store update of an open. */
    method PutOpened(id: Id, rec: Record, ghost ino: Ino, ghost hashed: seq<byte>, req: OpenRequest, putOk: bool)
      requires id in opens && opens[id] == Prepared(rec, ino, hashed, req)
      modifies this
      ensures View() == Advanced(old(View()), id, putOk) && handles == old(handles)
      ensures if putOk then id in opens && opens[id] == Stored(rec, ino, hashed, req) else id !in opens
    {
      ghost var t := Advanced(View(), id, putOk);
      PutRecord(id, rec.(owner := req.owner, expiresAt := req.now + RESUME_TTL), putOk);
      Follow(t);
    }

    method ListHandle(id: Id, rec: Record, ino: Ino, hashed: seq<byte>, req: OpenRequest)
      requires id in opens && opens[id] == Stored(rec, ino, hashed, req) && 0 <= req.size
      modifies this
      ensures View() == Advanced(old(View()), id, true)
      ensures handles == old(handles) + [NewHandle(id, rec, ino, hashed, req)]
    {
      ghost var t := Advanced(View(), id, true);
      uploads := uploads[id := |handles|];
      handles := handles + [Upload(id, req.target, rec.temp, rec.overwrite, req.owner, req.size, Some(ino), hashed,
                                   rec.offset, false, None, Running, Idle)];
      Follow(t);
    }

    /** What is left of an open once its file is open, cut back and hashed. */
    method Attach(id: Id, rec: Record, ino: Ino, hashed: seq<byte>, req: OpenRequest, putOk: bool) returns (ok: bool)
      requires id in opens && opens[id] == Prepared(rec, ino, hashed, req) && 0 <= req.size
      modifies this
      ensures View() == AttachThrough(old(View()), id, putOk) && ok == putOk
      ensures handles == if ok then old(handles) + [NewHandle(id, rec, ino, hashed, req)] else old(handles)
    {
      PutOpened(id, rec, ino, hashed, req, putOk);
      if !putOk {
        return false;
      }
      ListHandle(id, rec, ino, hashed, req);
      return true;
    }

    method LookRecord(id: Id, req: OpenRequest) returns (rec: Option<Record>)
      requires id in opens && opens[id] == Looking(req)
      modifies this
      ensures handles == old(handles)
      ensures View() == Advanced(old(View()), id, true)
      ensures if rec.Some? then id in opens && opens[id] == Validating(rec.value, req) else id !in opens
      ensures names == old(names) && inodes == old(inodes)
    {
      ghost var t := Advanced(View(), id, true);
      if id in store && store[id].path == req.target && store[id].size == req.size {
        rec := Some(store[id]);
      } else {
        rec := None;
      }
      Follow(t);
    }

    /** Validation, open, cut back and hash. */
    method OpenTemp(id: Id, rec: Record, ghost req: OpenRequest) returns (found: Found)
      requires id in opens && opens[id] == Validating(rec, req) && (rec.temp in names ==> names[rec.temp] in inodes)
      modifies this
      ensures handles == old(handles)
      ensures View() == Advanced(old(View()), id, true)
      ensures match found
              case Missing => id in opens && opens[id] == Discarding
              case Short => id !in opens
              case Ready(ino, hashed) => id in opens && opens[id] == Prepared(rec, ino, hashed, req)
    {
      ghost var t := Advanced(View(), id, true);
      if rec.temp !in names {
        found := Missing;
      } else if |inodes[names[rec.temp]]| < rec.offset {
        found := Short;
      } else {
        var ino := names[rec.temp];
        found := Ready(ino, inodes[ino][..rec.offset]);
        inodes := inodes[ino := found.hashed];
      }
      Follow(t);
    }

    method DiscardRecord(id: Id, putOk: bool)
      requires id in opens && opens[id] == Discarding
      modifies this
      ensures handles == old(handles)
      ensures View() == Advanced(old(View()), id, putOk)
    {
      ghost var t := Advanced(View(), id, putOk);
      DeleteRecord(id, putOk);
      Follow(t);
    }

    /** A resume once nobody else has the upload. */
    method ResumeRecord(id: Id, req: OpenRequest, putOk: bool) returns (ok: bool)
      requires id in opens && opens[id] == Looking(req) && 0 <= req.size
      requires forall p :: p in names ==> names[p] in inodes
      modifies this
      ensures |handles| == if ok then |old(handles)| + 1 else |old(handles)|
      ensures View() == LookThrough(old(View()), id, putOk)
    {
      var rec := LookRecord(id, req);
      if rec.None? {
        return false;
      }
      var found := OpenTemp(id, rec.value, req);
      match found {
        case Missing =>
          DiscardRecord(id, putOk);
          return false;
        case Short =>
          return false;
        case Ready(ino, hashed) =>
          ok := Attach(id, rec.value, ino, hashed, req, putOk);
      }
    }

    ghost method BeginResume(id: Id, req: OpenRequest)
      modifies this`opens, this`removals, this`hist
      ensures View() == Resumed(old(View()), id, req)
      ensures id in opens && opens[id] == if id in uploads then Displacing(uploads[id], req) else Looking(req)
    {
      Follow(Resumed(View(), id, req));
    }

    ghost method EndTakeover(id: Id, h: nat, req: OpenRequest)
      requires id in opens && opens[id] == Displacing(h, req) && HasEnded(View(), h)
      modifies this`opens, this`removals, this`hist
      ensures View() == Advanced(old(View()), id, true) && id in opens && opens[id] == Looking(req)
    {
      Follow(Advanced(View(), id, true));
    }

    /** A resume that nothing interrupts: the takeover of an active handle first, if there is one. */
    method ResumeUpload(id: Id, req: OpenRequest, closeOk: bool, putOk: bool) returns (ok: bool)
      requires 0 <= req.size && (forall p :: p in names ==> names[p] in inodes)
      requires id in uploads ==>
                 var h := uploads[id]; h < |handles| && handles[h].work.Idle? && handles[h].closing.Running?
      modifies this
      ensures |handles| == if ok then |old(handles)| + 1 else |old(handles)|
      ensures View() == ResumeThrough(old(View()), id, req, closeOk, putOk)
    {
      BeginResume(id, req);
      if id in uploads {
        var h := uploads[id];
        CloseUpload(h, req.now, closeOk);
        EndTakeover(id, h, req);
      }
      ok := ResumeRecord(id, req, putOk);
    }

    /** Nobody else holds a guard or a lock, and every name leads to a file. */
    ghost predicate Quiescent()
      reads this
    {
      && (forall id :: id in uploads ==>
           uploads[id] < |handles| && handles[uploads[id]].work.Idle? && handles[uploads[id]].closing.Running?)
      && (forall p :: p in names ==> names[p] in inodes)
    }

    /** An open of any kind; with a token, from a state as runs reach it, it goes on exactly where it should. */
    method OpenUpload(req: OpenRequest, saves: Saves, closeOk: bool, putOk: bool, ghost sha: Sha)
      returns (status: Status, ghost order: seq<Id>)
      requires Quiescent()
      modifies this
      ensures Distinct(order) && (0 <= req.size ==> forall id :: id in order <==> id in old(store))
      ensures View() == OpenThrough(old(View()), req, order, saves, closeOk, putOk)
      ensures status == Invalid <==> req.size < 0 || req.resume.BadToken?
      ensures status == Ok <==> |handles| == |old(handles)| + 1
      ensures 0 <= req.size && req.resume.FromToken? && Inv(old(View()), sha) ==>
                && (status == Ok <==> CanResume(old(View()), req.resume.id, req) && putOk)
                && Outcome(old(View()), View(), req.resume.id, req, putOk)
      ensures 0 <= req.size && req.resume.NoResume? ==>
                var taken := req.target in ExpireList(old(View()), req.now, order, saves).names;
                status == if !req.overwrite && taken then Exists else if putOk then Ok else Failed
    {
      order := [];
      if req.size < 0 {
        return Invalid, order;
      }
      ghost var before := View();
      var removed;
      removed, order := PruneExpired(req.now, saves);
      PassDropsExpired(before, req.now, order, saves);
      PassUnlinksExpired(before, req.now, order, saves);
      match req.resume {
        case BadToken =>
          return Invalid, order;
        case FromToken(id) =>
          if Inv(before, sha) { OpenGoesOn(before, id, req, order, saves, closeOk, putOk, sha); }
          if id in uploads && handles[uploads[id]].owner == req.owner {
            return Unavailable, order;
          }
          var ok := ResumeUpload(id, req, closeOk, putOk);
          return if ok then Ok else Unavailable, order;
        case NoResume =>
          if !req.overwrite && req.target in names {
            return Exists, order;
          }
          MakeTemp(req);
          var rec := Record(req.target, req.size, 0, req.overwrite, req.newTemp, req.owner, req.now + RESUME_TTL);
          var ok := Attach(req.newId, rec, req.newIno, [], req, putOk);
          return if ok then Ok else Failed, order;
      }
    }
  }
}
