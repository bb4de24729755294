/**
 Every interleaving of uploads: each event is one critical section, one store or table access or one
 file operation of an open, a frame, a close, an abort, a cancel or an expiry pass, so that any other
 one can come between. A crash can come after any of them.

 What an event does to its upload is a `Change`; `Apply` carries it out.
 */
module UploadMachine {
  import opened Prelude
  import opened UploadState

  // ---- Changes ------------------------------------------------------------------------------

  datatype StoreOp = Keep | Write(rec: Record) | Erase

  datatype Slot = Same | Vacant | Filled(opening: Opening)

  datatype FileAt = FileAt(ino: Ino, bytes: seq<byte>)

  datatype HandleAt = HandleAt(h: nat, u: Upload)

  datatype RemovalAt = RemovalAt(i: nat, stage: RemovalStage)

  datatype Rename = Rename(source: Path, target: Path)

  /** The parts of a change: store, disk, table and handles, opens and removals in progress, history. */
  datatype Change = Change(
    op: StoreOp, ok: bool,
    unlink: Option<Path>, rename: Option<Rename>, file: Option<FileAt>,
    unlist: bool, listing: Option<Upload>, handle: Option<HandleAt>,
    slot: Slot, removal: Option<RemovalAt>, begin: Option<RemovalStage>,
    fed: Option<seq<byte>>, published: Option<Publication>)

  const NOTHING := Change(Keep, true, None, None, None, false, None, None, Same, None, None, None, None)

  /** Put and Delete: the map in memory changes in any case, the saved one if it could be written. */
  function NewStore(s: State, id: Id, c: Change): map<Id, Record> {
    match c.op
    case Keep => s.store
    case Write(rec) => s.store[id := rec]
    case Erase => s.store - {id}
  }

  predicate StoredAfter(stored: bool, c: Change) {
    c.op.Write? || (stored && !c.op.Erase?)
  }

  function NewSaved(s: State, id: Id, c: Change): map<Id, Record> {
    if c.op.Keep? || !c.ok || (c.op.Erase? && id !in s.store) then s.saved else NewStore(s, id, c)
  }

  function NewNames(s: State, c: Change): map<Path, Ino> {
    if c.rename.Some? then
      var source, target := c.rename.value.source, c.rename.value.target;
      if source in s.names then (s.names - {source})[target := s.names[source]] else s.names
    else if c.unlink.Some? then s.names - {c.unlink.value}
    else s.names
  }

  function NewHandles(s: State, c: Change): seq<Upload> {
    if c.listing.Some? then s.handles + [c.listing.value]
    else if c.handle.Some? && c.handle.value.h < |s.handles| then s.handles[c.handle.value.h := c.handle.value.u]
    else s.handles
  }

  function NewUploads(s: State, id: Id, c: Change): map<Id, nat> {
    if c.listing.Some? then s.uploads[id := |s.handles|] else if c.unlist then s.uploads - {id} else s.uploads
  }

  function NewOpens(s: State, id: Id, c: Change): map<Id, Opening> {
    match c.slot
    case Same => s.opens
    case Vacant => s.opens - {id}
    case Filled(opening) => s.opens[id := opening]
  }

  function NewRemovals(s: State, id: Id, c: Change): seq<Removal> {
    if c.begin.Some? then s.removals + [Removal(id, c.begin.value)]
    else if c.removal.Some? && c.removal.value.i < |s.removals| then
      s.removals[c.removal.value.i := s.removals[c.removal.value.i].(stage := c.removal.value.stage)]
    else s.removals
  }

  function NewInfo(m: Info, c: Change): Info {
    var n := if c.fed.Some? then m.(fed := c.fed.value) else m;
    if c.op.Write? then n.(kept := c.op.rec.offset) else n
  }

  function Apply(s: State, id: Id, c: Change): State {
    State(
      NewStore(s, id, c), NewSaved(s, id, c),
      NewNames(s, c), if c.file.Some? then s.inodes[c.file.value.ino := c.file.value.bytes] else s.inodes,
      NewUploads(s, id, c), NewHandles(s, c), NewOpens(s, id, c), NewRemovals(s, id, c),
      History(if id in s.hist.made then s.hist.made[id := NewInfo(s.hist.made[id], c)] else s.hist.made,
              if c.published.Some? then s.hist.published + [c.published.value] else s.hist.published))
  }

  // ---- Handles ------------------------------------------------------------------------------

  function Becomes(h: nat, u: Upload): Change {
    NOTHING.(handle := Some(HandleAt(h, u)))
  }

  /** Takes the once-guard of a handle, if it is free. */
  function Claim(h: nat, u: Upload, abort: bool): Change {
    if u.closing.Running? then Becomes(h, u.(closing := Stopping(abort, Waiting))) else NOTHING
  }

  /** A data frame up to the store lookup of persist. */
  function Feed(h: nat, u: Upload, content: seq<byte>, stored: Option<Record>, offset: int, raw: seq<byte>,
                now: int): Change {
    if !u.work.Idle? || !DataAccepted(u, offset, raw) then NOTHING
    else
      var v := u.(hashed := u.hashed + raw, offset := u.offset + |raw|);
      var rec := Persisted(stored, v, now, false);
      Becomes(h, SavedAt(v, now, false).(work := if rec.Some? then Putting(rec.value) else Idle))
        .(file := Some(FileAt(u.file.value, WriteAt(content, u.offset, raw))), fed := Some(v.hashed))
  }

  /** A finish frame up to the existence check of publish; `taken` if the target exists. */
  function Finish(h: nat, u: Upload, taken: bool, size: int, digest: Digest, sha: Sha): Change {
    if !u.work.Idle? || !FinishAccepted(u, size, digest, sha) then NOTHING
    else Becomes(h, u.(file := None, work := if u.overwrite || !taken then Renaming(digest) else Idle))
  }

  /** What is left of a frame; `content` is what the temporary name leads to, if it exists. */
  function Proceed(h: nat, u: Upload, content: Option<seq<byte>>, listed: bool, ok: bool): Change {
    match u.work
    case Idle => NOTHING
    case Putting(rec) => Becomes(h, u.(work := Idle)).(op := Write(rec), ok := ok)
    case Renaming(digest) =>
      if content.None? then Becomes(h, u.(work := Idle))
      else Becomes(h, u.(work := Forgetting))
             .(rename := Some(Rename(u.temp, u.path)),
               published := Some(Publication(h, u.id, u.path, content.value, u.size, digest)))
    case Forgetting => Becomes(h, u.(work := Answering)).(op := Erase, ok := ok)
    case Answering =>
      if ok then Becomes(h, u.(work := Idle, completed := true)).(unlist := listed) else Becomes(h, u.(work := Idle))
  }

  function Staged(h: nat, u: Upload, stage: Stage): Change
    requires u.closing.Stopping?
  {
    Becomes(h, u.(closing := Stopping(u.closing.abort, stage)))
  }

  /** The next step of Close or abortAndRemove. */
  function Stop(h: nat, u: Upload, stored: Option<Record>, listed: bool, now: int, ok: bool): Change {
    if u.closing.Running? then NOTHING
    else match u.closing.stage
      case Waiting =>
        if !u.work.Idle? then NOTHING // the frame holds the lock
        else if u.closing.abort || u.completed then Staged(h, u.(file := None), Unlisting)
        else
          var rec := Persisted(stored, u, now, true);
          Staged(h, SavedAt(u, now, true).(file := None), if rec.Some? then Saving(rec.value) else Unlisting)
      case Saving(rec) => Staged(h, u, Unlisting).(op := Write(rec), ok := ok)
      case Unlisting => Staged(h, u, if u.closing.abort then Removing else Ended).(unlist := listed)
      case Removing => Staged(h, u, Deleting).(unlink := Some(u.temp))
      case Deleting => Staged(h, u, Ended).(op := Erase, ok := ok)
      case Ended => NOTHING
  }

  // ---- Opens --------------------------------------------------------------------------------

  predicate HasEnded(s: State, h: nat) {
    h < |s.handles| && s.handles[h].closing.Stopping? && s.handles[h].closing.stage.Ended?
  }

  /** The owner of the active upload cannot resume it. Opens of one token are taken to come one after the other. */
  predicate MayResume(s: State, id: Id, req: OpenRequest) {
    && 0 <= req.size && id !in s.opens && id in s.hist.made
    && (id in s.uploads && s.uploads[id] < |s.handles| ==> s.handles[s.uploads[id]].owner != req.owner)
  }

  /** The temporary file of a record, if it has its name. */
  function Content(s: State, temp: Path): Option<seq<byte>> {
    if temp in s.names && s.names[temp] in s.inodes then Some(s.inodes[s.names[temp]]) else None
  }

  function Advance(s: State, id: Id, ok: bool): Change
    requires id in s.opens
  {
    match s.opens[id]
    case Displacing(h, req) =>
      if HasEnded(s, h) then NOTHING.(slot := Filled(Looking(req)))
      else if h < |s.handles| then Claim(h, s.handles[h], false) else NOTHING
    case Looking(req) =>
      if id in s.store && s.store[id].path == req.target && s.store[id].size == req.size
      then NOTHING.(slot := Filled(Validating(s.store[id], req)))
      else NOTHING.(slot := Vacant)
    case Validating(rec, req) =>
      Truncate(rec, req, Content(s, rec.temp), if rec.temp in s.names then s.names[rec.temp] else 0)
    case Discarding => NOTHING.(slot := Vacant, op := Erase, ok := ok)
    case Prepared(rec, ino, hashed, req) =>
      NOTHING.(slot := if ok then Filled(Stored(rec, ino, hashed, req)) else Vacant,
               op := Write(Renewed(rec, req)), ok := ok)
    case Stored(rec, ino, hashed, req) =>
      if req.size < 0 then NOTHING.(slot := Vacant)
      else NOTHING.(slot := Vacant, listing := Some(NewHandle(id, rec, ino, hashed, req)))
  }

  /** Validation, then the cut back to the recorded offset and the hash of what is left. */
  function Truncate(rec: Record, req: OpenRequest, content: Option<seq<byte>>, ino: Ino): Change {
    if content.None? then NOTHING.(slot := Filled(Discarding))
    else if |content.value| < rec.offset then NOTHING.(slot := Vacant)
    else
      var kept := content.value[..rec.offset];
      NOTHING.(slot := Filled(Prepared(rec, ino, kept, req)), file := Some(FileAt(ino, kept)), fed := Some(kept))
  }

  // ---- Cancel and expiry --------------------------------------------------------------------

  function ToStage(i: nat, stage: RemovalStage): Change {
    NOTHING.(removal := Some(RemovalAt(i, stage)))
  }

  function Remove(s: State, i: nat, ok: bool): Change
    requires i < |s.removals|
  {
    var id := s.removals[i].id;
    match s.removals[i].stage
    case Testing(temp) => ToStage(i, if id in s.uploads then Answered(false) else Unlinking(temp))
    case Aborting(h) =>
      if HasEnded(s, h) then ToStage(i, Answered(true)) else if h < |s.handles| then Claim(h, s.handles[h], true)
      else NOTHING
    case LookingUp => ToStage(i, if id in s.store then Unlinking(s.store[id].temp) else Answered(false))
    case Unlinking(temp) => ToStage(i, Erasing).(unlink := Some(temp))
    case Erasing => ToStage(i, Answered(true)).(op := Erase, ok := ok)
    case Answered(_) => NOTHING
  }

  // ---- Events -------------------------------------------------------------------------------

  datatype Event =
    | Create(req: OpenRequest)
    | Resume(id: Id, req: OpenRequest)
    | OpenNext(id: Id, ok: bool)
    | OpenFails(id: Id)
    | DataFrame(h: nat, offset: int, raw: seq<byte>, now: int)
    | FinishFrame(h: nat, size: int, digest: Digest)
    | WorkNext(h: nat, ok: bool)
    | CloseHandle(h: nat)
    | StopNext(h: nat, now: int, ok: bool)
    | SeeExpired(id: Id, now: int)
    | CancelToken(id: Id)
    | CancelResource(id: Id)
    | RemovalNext(i: nat, ok: bool)
    | Crash
    | Foreign(path: Path, content: Option<seq<byte>>, ino: Ino)

  /** Creates, crashes and foreign changes apart, an event is a change to one upload. */
  predicate Ordinary(e: Event) {
    !e.Create? && !e.Crash? && !e.Foreign?
  }

  predicate OfHandle(e: Event) {
    e.DataFrame? || e.FinishFrame? || e.WorkNext? || e.CloseHandle? || e.StopNext?
  }

  /** The handle, open or removal that the event moves on exists. */
  predicate Possible(s: State, e: Event) {
    && (OfHandle(e) ==> e.h < |s.handles|)
    && (e.RemovalNext? ==> e.i < |s.removals|)
    && (e.OpenNext? || e.OpenFails? ==> e.id in s.opens)
  }

  function Subject(s: State, e: Event): Id
    requires Ordinary(e) && Possible(s, e)
  {
    if OfHandle(e) then s.handles[e.h].id else if e.RemovalNext? then s.removals[e.i].id else e.id
  }

  predicate Listed(s: State, h: nat)
    requires h < |s.handles|
  {
    s.handles[h].id in s.uploads && s.uploads[s.handles[h].id] == h
  }

  function HandleChange(s: State, e: Event, sha: Sha): Change
    requires OfHandle(e) && Possible(s, e)
  {
    var h, u := e.h, s.handles[e.h];
    match e
    case DataFrame(_, offset, raw, now) =>
      Feed(h, u, if u.file.Some? && u.file.value in s.inodes then s.inodes[u.file.value] else [], Get(s.store, u.id),
           offset, raw, now)
    case FinishFrame(_, size, digest) => Finish(h, u, u.path in s.names, size, digest, sha)
    case WorkNext(_, ok) => Proceed(h, u, Content(s, u.temp), Listed(s, h), ok)
    case CloseHandle(_) => Claim(h, u, false)
    case StopNext(_, now, ok) => Stop(h, u, Get(s.store, u.id), Listed(s, h), now, ok)
  }

  function ChangeOf(s: State, e: Event, sha: Sha): Change
    requires Ordinary(e) && Possible(s, e)
  {
    if OfHandle(e) then HandleChange(s, e, sha)
    else match e
      case Resume(id, req) =>
        if !MayResume(s, id, req) then NOTHING
        else NOTHING.(slot := Filled(if id in s.uploads then Displacing(s.uploads[id], req) else Looking(req)))
      case OpenNext(id, ok) => Advance(s, id, ok)
      case OpenFails(id) => NOTHING.(slot := Vacant)
      case SeeExpired(id, now) =>
        if id in s.store && s.store[id].expiresAt <= now then NOTHING.(begin := Some(Testing(s.store[id].temp)))
        else NOTHING
      case CancelToken(id) => NOTHING.(begin := Some(if id in s.uploads then Aborting(s.uploads[id]) else LookingUp))
      case CancelResource(id) =>
        NOTHING.(begin := Some(if id in s.uploads then Aborting(s.uploads[id]) else Answered(false)))
      case RemovalNext(i, ok) => Remove(s, i, ok)
  }

  // ---- Creates, crashes, foreign changes ----------------------------------------------------

  /** New transfer IDs and temporary names are random: they are taken never to repeat. */
  ghost predicate FreshUpload(s: State, req: OpenRequest) {
    && 0 <= req.size
    && req.newId !in s.hist.made && req.newId !in s.opens
    && IsTempName(req.newTemp) && req.newTemp !in s.names && req.newIno !in s.inodes
    && (forall id :: id in s.hist.made ==> s.hist.made[id].temp != req.newTemp)
  }

  /** A fresh open up to its opened temporary file. That the target was free was seen some time before. */
  function Created(s: State, req: OpenRequest): State
    requires 0 <= req.size
  {
    s.(names := s.names[req.newTemp := req.newIno], inodes := s.inodes[req.newIno := []],
       opens := s.opens[req.newId := Prepared(NewRecord(req), req.newIno, [], req)],
       hist := s.hist.(made := s.hist.made[
                         req.newId := Info(req.newTemp, req.newIno, req.target, req.size, req.overwrite, [], 0)]))
  }

  /** After a crash no handle exists any more; a dead handle is one that no operation can act through. */
  function Dead(u: Upload): Upload {
    u.(file := None, closing := Stopping(false, Ended), work := Idle)
  }

  function Reboot(s: State): State {
    State(s.saved, s.saved, s.names, s.inodes,
          map[], seq(|s.handles|, i requires 0 <= i < |s.handles| => Dead(s.handles[i])), map[], [],
          s.hist.(made := map id | id in s.hist.made ::
                            s.hist.made[id].(kept := if id in s.saved then s.saved[id].offset else 0)))
  }

  /** Somebody else removes or replaces a file that is not a temporary one. */
  function Disturbed(s: State, path: Path, content: Option<seq<byte>>, ino: Ino): State {
    if IsTempName(path) || ino in s.inodes then s
    else if content.None? then s.(names := s.names - {path})
    else s.(names := s.names[path := ino], inodes := s.inodes[ino := content.value])
  }

  ghost function Step(s: State, e: Event, sha: Sha): State {
    match e
    case Create(req) => if FreshUpload(s, req) then Created(s, req) else s
    case Crash => Reboot(s)
    case Foreign(path, content, ino) => Disturbed(s, path, content, ino)
    case _ => if Possible(s, e) then Apply(s, Subject(s, e), ChangeOf(s, e, sha)) else s
  }

  ghost function RunFrom(s: State, events: seq<Event>, sha: Sha): State {
    if events == [] then s else Step(RunFrom(s, events[..|events| - 1], sha), events[|events| - 1], sha)
  }

  ghost function Run(events: seq<Event>, sha: Sha): State {
    RunFrom(INITIAL, events, sha)
  }

  /** The caller's side of the bargain: no upload targets a name of the temporary-file form. */
  predicate Polite(e: Event) {
    e.Create? ==> !IsTempName(e.req.target)
  }

  predicate AllPolite(events: seq<Event>) {
    forall i :: 0 <= i < |events| ==> Polite(events[i])
  }

  lemma RunSnoc(s: State, events: seq<Event>, e: Event, sha: Sha)
    ensures RunFrom(s, events + [e], sha) == Step(RunFrom(s, events, sha), e, sha)
  {
    assert (events + [e])[..|events|] == events;
  }

  lemma {:induction false} RunConcat(s: State, before: seq<Event>, after: seq<Event>, sha: Sha)
    ensures RunFrom(s, before + after, sha) == RunFrom(RunFrom(s, before, sha), after, sha)
  {
    if after == [] {
      assert before + after == before;
    } else {
      var shorter := after[..|after| - 1];
      RunConcat(s, before, shorter, sha);
      assert before + after == before + shorter + [after[|after| - 1]];
      RunSnoc(s, before + shorter, after[|after| - 1], sha);
    }
  }

  lemma RunOf1(s: State, e: Event, sha: Sha)
    ensures RunFrom(s, [e], sha) == Step(s, e, sha)
  {
    RunSnoc(s, [], e, sha);
    assert [] + [e] == [e];
  }

  lemma RunOf2(s: State, e: Event, f: Event, sha: Sha)
    ensures RunFrom(s, [e, f], sha) == Step(Step(s, e, sha), f, sha)
  {
    RunOf1(s, e, sha);
    RunSnoc(s, [e], f, sha);
    assert [e] + [f] == [e, f];
  }

  lemma RunCons(s: State, e: Event, rest: seq<Event>, sha: Sha)
    ensures RunFrom(s, [e] + rest, sha) == RunFrom(Step(s, e, sha), rest, sha)
  {
    RunOf1(s, e, sha);
    RunConcat(s, [e], rest, sha);
  }
}
