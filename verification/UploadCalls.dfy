/** Whole operations of the upload service that nothing interrupts, on values, and what they come to. */
module UploadCalls {
  import opened Prelude
  import opened UploadState
  import opened UploadMachine
  import opened UploadScripts

  /** A finish frame that nothing interrupts. */
  function FinishThrough(s: State, h: nat, size: int, digest: Digest, sha: Sha, putOk: bool, sendOk: bool): State
    requires h < |s.handles|
  {
    Worked(Worked(Worked(Finished(s, h, size, digest, sha), h, true), h, putOk), h, sendOk)
  }

  /** A Close that nothing interrupts; without a record to save it has one step less. */
  function CloseThrough(s: State, h: nat, now: int, putOk: bool): State
    requires h < |s.handles|
  {
    var t := Stopped(Claimed(s, h, false), h, now, true);
    if t.handles[h].closing.Stopping? && t.handles[h].closing.stage.Saving? then
      Stopped(Stopped(t, h, now, putOk), h, now, true)
    else Stopped(t, h, now, true)
  }

  /** abortAndRemove that nothing interrupts. */
  function AbortThrough(s: State, h: nat, now: int, putOk: bool): State
    requires h < |s.handles|
  {
    Stopped(Stopped(Stopped(Stopped(Claimed(s, h, true), h, now, true), h, now, true), h, now, true), h, now, putOk)
  }

  /** A cancel that nothing interrupts: through the active handle, or by itself. */
  function CancelThrough(s: State, id: Id, now: int, putOk: bool): State
    requires id in s.uploads ==> s.uploads[id] < |s.handles|
  {
    var i, t := |s.removals|, TokenCancelled(s, id);
    if id in s.uploads then
      var r := AbortThrough(t, s.uploads[id], now, putOk);
      if i < |r.removals| then Removed(r, i, true) else r
    else if id in s.store then Removed(Removed(Removed(t, i, true), i, true), i, putOk)
    else Removed(t, i, true)
  }

  /** A cancel of the current session's transfer: through the active handle, or not at all. */
  function ResourceCancelThrough(s: State, id: Id, now: int, putOk: bool): State
    requires id in s.uploads ==> s.uploads[id] < |s.handles|
  {
    var i, t := |s.removals|, ResourceCancelled(s, id);
    if id in s.uploads then
      var r := AbortThrough(t, s.uploads[id], now, putOk);
      if i < |r.removals| then Removed(r, i, true) else r
    else t
  }

  /** The steps of an expiry pass about one record that its copy calls expired, done at once. */
  function ExpireThrough(s: State, id: Id, putOk: bool): State
    requires id in s.store
  {
    var i, t := |s.removals|, SeenExpired(s, id);
    if id in s.uploads then Removed(t, i, true) else Removed(Removed(Removed(t, i, true), i, true), i, putOk)
  }

  /** For each record that a pass removes, whether the store could be saved then. */
  type Saves = Id -> bool

  /** A whole pass in the given order. */
  function ExpireList(s: State, now: int, ids: seq<Id>, saves: Saves): State {
    if ids == [] then s
    else
      var id, t := ids[|ids| - 1], ExpireList(s, now, ids[..|ids| - 1], saves);
      if id in t.store && t.store[id].expiresAt <= now then ExpireThrough(t, id, saves(id)) else t
  }

  ghost predicate Distinct(ids: seq<Id>) {
    forall i, j :: 0 <= i < j < |ids| ==> ids[i] != ids[j]
  }

  /** Nothing but the records and names of `t` differs from `s`, apart from removals. */
  predicate OnlyRemoved(s: State, t: State) {
    t.uploads == s.uploads && t.handles == s.handles && t.inodes == s.inodes && t.opens == s.opens
  }

  lemma TestMoves(s: State, i: nat, id: Id, temp: Path)
    requires i < |s.removals| && s.removals[i] == Removal(id, Testing(temp))
    ensures var t := Removed(s, i, true);
            && OnlyRemoved(s, t) && t.store == s.store && t.names == s.names && i < |t.removals|
            && t.removals[i] == Removal(id, if id in s.uploads then Answered(false) else Unlinking(temp))
  {
  }

  lemma UnlinkMoves(s: State, i: nat, id: Id, temp: Path)
    requires i < |s.removals| && s.removals[i] == Removal(id, Unlinking(temp))
    ensures var t := Removed(s, i, true);
            && OnlyRemoved(s, t) && t.store == s.store && t.names == s.names - {temp} && i < |t.removals|
            && t.removals[i] == Removal(id, Erasing)
  {
  }

  lemma EraseMoves(s: State, i: nat, id: Id, putOk: bool)
    requires i < |s.removals| && s.removals[i] == Removal(id, Erasing)
    ensures var t := Removed(s, i, putOk); OnlyRemoved(s, t) && t.store == s.store - {id} && t.names == s.names
  {
  }

  lemma ExpireDrops(s: State, id: Id, putOk: bool)
    requires id in s.store
    ensures var t := ExpireThrough(s, id, putOk);
            && OnlyRemoved(s, t)
            && t.store == (if id in s.uploads then s.store else s.store - {id})
            && t.names == (if id in s.uploads then s.names else s.names - {s.store[id].temp})
  {
    var i, temp, t := |s.removals|, s.store[id].temp, SeenExpired(s, id);
    TestMoves(t, i, id, temp);
    if id !in s.uploads {
      UnlinkMoves(Removed(t, i, true), i, id, temp);
      EraseMoves(Removed(Removed(t, i, true), i, true), i, id, putOk);
    }
  }

  /** The pass removes the record. */
  predicate Drops(s: State, now: int, id: Id) {
    id in s.store && s.store[id].expiresAt <= now && id !in s.uploads
  }

  /** A pass that nothing interrupts drops exactly the expired records of uploads that are not active. */
  lemma {:induction false} PassDropsExpired(s: State, now: int, ids: seq<Id>, saves: Saves)
    ensures var t := ExpireList(s, now, ids, saves);
            && OnlyRemoved(s, t)
            && (forall id :: id in t.store <==> id in s.store && !(id in ids && Drops(s, now, id)))
            && (forall id :: id in t.store ==> t.store[id] == s.store[id])
  {
    if ids != [] {
      var front, id := ids[..|ids| - 1], ids[|ids| - 1];
      PassDropsExpired(s, now, front, saves);
      var t := ExpireList(s, now, front, saves);
      assert forall j :: j in ids <==> j in front || j == id;
      if id in t.store && t.store[id].expiresAt <= now { ExpireDrops(t, id, saves(id)); }
    }
  }

  /** The records that the pass removes, in memory and on disk. */
  ghost function DroppedIds(s: State, now: int, ids: seq<Id>, saves: Saves): set<Id> {
    set id | id in ids && Drops(s, now, id) && saves(id)
  }

  lemma DroppedIdsSnoc(s: State, now: int, ids: seq<Id>, saves: Saves, id: Id)
    requires id !in ids
    ensures |DroppedIds(s, now, ids + [id], saves)|
         == |DroppedIds(s, now, ids, saves)| + if Drops(s, now, id) && saves(id) then 1 else 0
  {
    if Drops(s, now, id) && saves(id) {
      assert DroppedIds(s, now, ids + [id], saves) == DroppedIds(s, now, ids, saves) + {id};
    } else {
      assert DroppedIds(s, now, ids + [id], saves) == DroppedIds(s, now, ids, saves);
    }
  }

  /** An expiry pass over the records of `before`: `order` done, `pending` to do. */
  ghost predicate Passing(before: State, view: State, now: int, order: seq<Id>, pending: set<Id>, removed: nat,
                          saves: Saves) {
    && view.uploads == before.uploads && view == ExpireList(before, now, order, saves) && Distinct(order)
    && (forall id :: id in before.store <==> id in pending || id in order)
    && (forall id :: id in pending ==> id !in order && id in view.store && view.store[id] == before.store[id])
    && removed == |DroppedIds(before, now, order, saves)|
  }

  lemma PassingStep(before: State, view: State, after: State, now: int, order: seq<Id>, pending: set<Id>,
                    removed: nat, saves: Saves, id: Id)
    requires Passing(before, view, now, order, pending, removed, saves) && id in pending
    requires after == if before.store[id].expiresAt <= now then ExpireThrough(view, id, saves(id)) else view
    requires after.uploads == view.uploads && (after.store == view.store || after.store == view.store - {id})
    ensures var more := if Drops(before, now, id) && saves(id) then 1 else 0;
            Passing(before, after, now, order + [id], pending - {id}, removed + more, saves)
  {
    DroppedIdsSnoc(before, now, order, saves, id);
    assert (order + [id])[..|order|] == order;
  }

  ghost function DroppedTemps(s: State, now: int, ids: seq<Id>): set<Path> {
    set id | id in ids && Drops(s, now, id) :: s.store[id].temp
  }

  lemma DroppedSnoc(s: State, now: int, ids: seq<Id>)
    requires ids != []
    ensures var id := ids[|ids| - 1];
            DroppedTemps(s, now, ids) == DroppedTemps(s, now, ids[..|ids| - 1]) + DroppedTemp(s, now, id)
  {
    assert forall j :: j in ids <==> j in ids[..|ids| - 1] || j == ids[|ids| - 1];
  }

  function DroppedTemp(s: State, now: int, id: Id): set<Path> {
    if Drops(s, now, id) then {s.store[id].temp} else {}
  }

  lemma PassStep(s: State, now: int, ids: seq<Id>, saves: Saves)
    requires ids != [] && ids[|ids| - 1] !in ids[..|ids| - 1]
    ensures ExpireList(s, now, ids, saves).names
         == ExpireList(s, now, ids[..|ids| - 1], saves).names - DroppedTemp(s, now, ids[|ids| - 1])
  {
    var front, id := ids[..|ids| - 1], ids[|ids| - 1];
    var t := ExpireList(s, now, front, saves);
    PassDropsExpired(s, now, front, saves);
    if id in t.store && t.store[id].expiresAt <= now { ExpireDrops(t, id, saves(id)); }
    assert t.names - {} == t.names;
  }

  /** And with them exactly their files' names. */
  lemma {:induction false} PassUnlinksExpired(s: State, now: int, ids: seq<Id>, saves: Saves)
    requires Distinct(ids)
    ensures ExpireList(s, now, ids, saves).names == s.names - DroppedTemps(s, now, ids)
  {
    if ids == [] {
      assert s.names - DroppedTemps(s, now, ids) == s.names;
    } else {
      var front := ids[..|ids| - 1];
      PassUnlinksExpired(s, now, front, saves);
      PassStep(s, now, ids, saves);
      DroppedSnoc(s, now, ids);
      MinusTwice(s.names, DroppedTemps(s, now, front), DroppedTemp(s, now, ids[|ids| - 1]));
    }
  }

  lemma MinusTwice(names: map<Path, Ino>, a: set<Path>, b: set<Path>)
    ensures names - a - b == names - (a + b)
  {
  }

  datatype Found = Missing | Short | Ready(ino: Ino, hashed: seq<byte>)

  /** An open from its opened file on. */
  function AttachThrough(s: State, id: Id, putOk: bool): State
    requires id in s.opens
  {
    var t := Advanced(s, id, putOk);
    if id in t.opens then Advanced(t, id, true) else t
  }

  /** A resume from its store lookup on. */
  function LookThrough(s: State, id: Id, putOk: bool): State
    requires id in s.opens
  {
    var t := Advanced(s, id, true);
    if id !in t.opens then t
    else
      var r := Advanced(t, id, true);
      if id !in r.opens then r else if r.opens[id].Discarding? then Advanced(r, id, putOk)
      else AttachThrough(r, id, putOk)
  }

  function ResumeThrough(s: State, id: Id, req: OpenRequest, closeOk: bool, putOk: bool): State
    requires id in s.uploads ==> s.uploads[id] < |s.handles|
  {
    var t := Resumed(s, id, req);
    if id !in s.uploads then LookThrough(t, id, putOk)
    else
      var r := CloseThrough(t, s.uploads[id], req.now, closeOk);
      if id in r.opens then
        var q := Advanced(r, id, true);
        if id in q.opens then LookThrough(q, id, putOk) else q
      else r
  }

  /** An open that nothing interrupts; the expiry pass goes through the records in the given order. */
  function OpenThrough(s: State, req: OpenRequest, order: seq<Id>, saves: Saves, closeOk: bool, putOk: bool): State
    requires forall id :: id in s.uploads ==> s.uploads[id] < |s.handles|
  {
    if req.size < 0 then s
    else
      var p := ExpireList(s, req.now, order, saves);
      match req.resume
      case BadToken => p
      case FromToken(id) =>
        if id in p.uploads && (|p.handles| <= p.uploads[id] || p.handles[p.uploads[id]].owner == req.owner) then p
        else ResumeThrough(p, id, req, closeOk, putOk)
      case NoResume =>
        if !req.overwrite && req.target in p.names then p else AttachThrough(Created(p, req), req.newId, putOk)
  }

  function StopRecord(u: Upload, stored: Option<Record>, now: int): Option<Record>
    requires u.closing.Stopping?
  {
    if u.closing.abort || u.completed then None else Persisted(stored, u, now, true)
  }

  /** What a Close or an abort does under the handle's lock. */
  function UnderLock(s: State, h: nat, now: int): State
    requires h < |s.handles| && s.handles[h].closing.Stopping?
  {
    var u := s.handles[h];
    var record := StopRecord(u, Get(s.store, u.id), now);
    var v := if u.closing.abort || u.completed then u else SavedAt(u, now, true);
    var stage := if record.Some? then Saving(record.value) else Unlisting;
    s.(handles := s.handles[h := v.(file := None, closing := Stopping(u.closing.abort, stage))])
  }

  lemma UnderLockIsStep(s: State, h: nat, now: int)
    requires h < |s.handles| && s.handles[h].closing.Stopping? && s.handles[h].closing.stage.Waiting?
    requires s.handles[h].work.Idle?
    ensures UnderLock(s, h, now) == Stopped(s, h, now, true)
  {
  }

  lemma EndedStays(s: State, h: nat, now: int, putOk: bool)
    requires h < |s.handles| && s.handles[h].closing.Stopping? && s.handles[h].closing.stage.Ended?
    ensures CloseThrough(s, h, now, putOk) == s
  {
  }

  /** Handle `h` has taken `raw`; only the throttle of persist, files and records differ otherwise. */
  predicate Extends(s: State, t: State, h: nat, raw: seq<byte>) {
    && h < |s.handles| == |t.handles|
    && (var u, v := s.handles[h], t.handles[h];
        v == u.(hashed := u.hashed + raw, offset := u.offset + |raw|, lastSave := v.lastSave, work := v.work))
    && (t.handles[h].work.Idle? || t.handles[h].work.Putting?)
    && t.names == s.names && t.inodes.Keys >= s.inodes.Keys && t.uploads == s.uploads
    && t.handles == s.handles[h := t.handles[h]]
  }

  lemma FedExtends(s: State, h: nat, raw: seq<byte>, now: int)
    requires h < |s.handles| && s.handles[h].work.Idle? && DataAccepted(s.handles[h], s.handles[h].offset, raw)
    ensures Extends(s, Fed(s, h, s.handles[h].offset, raw, now), h, raw)
  {
  }

  lemma WorkedExtends(s: State, t: State, h: nat, raw: seq<byte>, putOk: bool)
    requires Extends(s, t, h, raw)
    ensures Extends(s, Worked(t, h, putOk), h, raw) && Worked(t, h, putOk).handles[h].work.Idle?
  {
  }

  lemma RefusedChunk(s: State, h: nat, offset: int, raw: seq<byte>, now: int)
    requires h < |s.handles| && !DataAccepted(s.handles[h], offset, raw)
    ensures Fed(s, h, offset, raw, now) == s
  {
  }

  lemma RefusedFinish(s: State, h: nat, size: int, digest: Digest, sha: Sha)
    requires h < |s.handles| && !FinishAccepted(s.handles[h], size, digest, sha)
    ensures Finished(s, h, size, digest, sha) == s
  {
  }

  lemma IdleStays(s: State, h: nat, ok: bool)
    requires h < |s.handles| && s.handles[h].work.Idle?
    ensures Worked(s, h, ok) == s
  {
  }

  lemma IdleStaysTwice(s: State, h: nat, ok1: bool, ok2: bool)
    requires h < |s.handles| && s.handles[h].work.Idle?
    ensures Worked(Worked(s, h, ok1), h, ok2) == s
  {
    IdleStays(s, h, ok1);
    IdleStays(s, h, ok2);
  }

  lemma IdleStaysThrice(s: State, h: nat, ok1: bool, ok2: bool)
    requires h < |s.handles| && s.handles[h].work.Idle?
    ensures Worked(Worked(Worked(s, h, true), h, ok1), h, ok2) == s
  {
    IdleStays(s, h, true);
    IdleStaysTwice(s, h, ok1, ok2);
  }
}
