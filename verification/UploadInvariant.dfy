/** What every step of the upload machine keeps, whatever it is interleaved with. */
module UploadInvariant {
  import opened Prelude
  import opened UploadState
  import opened UploadMachine

  // ---- The invariant, upload by upload ------------------------------------------------------

  /** The file of an upload holds exactly the accepted bytes; its name, while it exists, is that file's. */
  ghost predicate FileOk(s: State, m: Info) {
    && IsTempName(m.temp) && !IsTempName(m.path)
    && m.kept <= |m.fed| <= m.size
    && m.ino in s.inodes && s.inodes[m.ino] == m.fed
    && (m.temp in s.names ==> s.names[m.temp] == m.ino)
  }

  predicate Shape(m: Info, rec: Record) {
    rec.temp == m.temp && rec.path == m.path && rec.size == m.size && rec.overwrite == m.overwrite
  }

  ghost predicate RecordsOk(s: State, id: Id, m: Info) {
    && (id in s.store ==> Shape(m, s.store[id]) && s.store[id].offset == m.kept)
    && (id in s.saved ==> Shape(m, s.saved[id]) && s.saved[id].offset <= m.kept)
  }

  /** Before removeUpload. */
  predicate Engaged(u: Upload) {
    && !u.completed
    && (u.closing.Running? || u.closing.stage.Waiting? || u.closing.stage.Saving? || u.closing.stage.Unlisting?)
  }

  /** Frames may still act through the handle. */
  predicate Taking(u: Upload) {
    !u.completed && (u.closing.Running? || u.closing.stage.Waiting?)
  }

  /** A handle by itself: `listed` if the table names it, `named` if its temporary name exists. */
  ghost predicate HandleOk(u: Upload, m: Info, listed: bool, named: bool, sha: Sha) {
    && u.temp == m.temp && u.path == m.path && u.size == m.size && u.overwrite == m.overwrite
    && (Engaged(u) <==> listed)
    && (Engaged(u) ==> u.hashed == m.fed && |u.hashed| == u.offset && m.kept <= u.offset)
    && (u.file.Some? ==> Taking(u) && u.file.value == m.ino && (u.work.Idle? || u.work.Putting?))
    && (!u.work.Idle? ==> Taking(u))
    && StageOk(u, m, named) && WorkOk(u, m, named, sha)
    && (u.completed ==> !named)
  }

  ghost predicate StageOk(u: Upload, m: Info, named: bool) {
    u.closing.Stopping? ==>
      match u.closing.stage
      case Waiting => true
      case Saving(rec) => !u.closing.abort && !u.completed && Shape(m, rec) && rec.offset == u.offset
      case Unlisting => true
      case Removing => u.closing.abort
      case Deleting => u.closing.abort && !named
      case Ended => true
  }

  ghost predicate WorkOk(u: Upload, m: Info, named: bool, sha: Sha) {
    match u.work
    case Idle => true
    case Putting(rec) => u.file.Some? && Shape(m, rec) && rec.offset == u.offset
    case Renaming(digest) => u.offset == u.size && digest == sha(u.hashed)
    case Forgetting => !named
    case Answering => !named
  }

  ghost predicate HandlesOk(s: State, id: Id, m: Info, sha: Sha) {
    && (forall h :: 0 <= h < |s.handles| && s.handles[h].id == id ==>
         HandleOk(s.handles[h], m, Listed(s, h), m.temp in s.names, sha))
    && (id in s.uploads ==> s.uploads[id] < |s.handles| && s.handles[s.uploads[id]].id == id)
  }

  predicate AskedFor(m: Info, rec: Record, req: OpenRequest) {
    Shape(m, rec) && rec.offset == m.kept && req.target == rec.path && req.size == rec.size
  }

  /** An open past its takeover has the upload to itself. */
  ghost predicate OpenOk(s: State, id: Id, m: Info) {
    id in s.opens ==>
      && (id in s.uploads ==> s.opens[id].Displacing? && s.opens[id].h == s.uploads[id])
      && match s.opens[id]
         case Displacing(h, req) => 0 <= req.size && h < |s.handles| && s.handles[h].id == id
         case Looking(req) => 0 <= req.size
         case Validating(rec, req) => AskedFor(m, rec, req)
         case Discarding => true
         case Prepared(rec, ino, hashed, req) =>
           AskedFor(m, rec, req) && ino == m.ino && hashed == m.fed && |hashed| == rec.offset
         case Stored(rec, ino, hashed, req) =>
           AskedFor(m, rec, req) && ino == m.ino && hashed == m.fed && |hashed| == rec.offset
  }

  /** No open and no handle can write to the upload's file. */
  ghost predicate Frozen(s: State, id: Id) {
    && (id in s.opens ==> !s.opens[id].Prepared? && !s.opens[id].Stored?)
    && (forall h :: 0 <= h < |s.handles| && s.handles[h].id == id ==>
         s.handles[h].file.None? && !s.handles[h].work.Renaming?)
  }

  /** A publication is of the accepted bytes, as declared, and the upload is over. */
  ghost predicate PublishedOk(s: State, id: Id, m: Info, sha: Sha) {
    forall i :: 0 <= i < |s.hist.published| && s.hist.published[i].id == id ==>
      var p := s.hist.published[i];
      && p.handle < |s.handles| && s.handles[p.handle].id == id
      && p.size == |p.bytes| == m.size && p.path == m.path && p.digest == sha(p.bytes) && p.bytes == m.fed
      && m.temp !in s.names && Frozen(s, id)
  }

  ghost predicate UploadOk(s: State, id: Id, sha: Sha)
    requires id in s.hist.made
  {
    var m := s.hist.made[id];
    FileOk(s, m) && RecordsOk(s, id, m) && HandlesOk(s, id, m, sha) && OpenOk(s, id, m) && PublishedOk(s, id, m, sha)
  }

  // ---- Across uploads -----------------------------------------------------------------------

  predicate Overlap(a: Info, b: Info) {
    a.temp == b.temp || a.ino == b.ino
  }

  ghost predicate Apart(s: State) {
    && (forall i, j :: i in s.hist.made && j in s.hist.made && Overlap(s.hist.made[i], s.hist.made[j]) ==> i == j)
    && (forall p :: p in s.names ==> s.names[p] in s.inodes)
    && (forall i, j :: 0 <= i < j < |s.hist.published| ==> s.hist.published[i].id != s.hist.published[j].id)
  }

  ghost predicate Known(s: State) {
    && s.store.Keys <= s.hist.made.Keys && s.saved.Keys <= s.hist.made.Keys
    && s.uploads.Keys <= s.hist.made.Keys && s.opens.Keys <= s.hist.made.Keys
    && (forall h :: 0 <= h < |s.handles| ==> s.handles[h].id in s.hist.made)
    && (forall i :: 0 <= i < |s.hist.published| ==> s.hist.published[i].id in s.hist.made)
  }

  ghost predicate RemovalOk(s: State, r: Removal) {
    match r.stage
    case Testing(temp) => r.id in s.hist.made && temp == s.hist.made[r.id].temp
    case Aborting(h) => h < |s.handles| && s.handles[h].id == r.id
    case LookingUp => true
    case Unlinking(temp) => r.id in s.hist.made && temp == s.hist.made[r.id].temp
    case Erasing => r.id in s.hist.made && s.hist.made[r.id].temp !in s.names
    case Answered(_) => true
  }

  ghost predicate RemovalsOk(s: State) {
    forall i :: 0 <= i < |s.removals| ==> RemovalOk(s, s.removals[i])
  }

  ghost predicate Inv(s: State, sha: Sha) {
    && Apart(s) && Known(s) && RemovalsOk(s)
    && forall id :: id in s.hist.made ==> UploadOk(s, id, sha)
  }

  // ---- What a step on one upload leaves of the others ---------------------------------------

  predicate SameAt<K, V(==)>(a: map<K, V>, b: map<K, V>, k: K) {
    (k in a <==> k in b) && (k in a && k in b ==> a[k] == b[k])
  }

  /** Nothing about upload `j` has changed, except perhaps publications and handles of others. */
  ghost predicate Untouched(s: State, t: State, j: Id)
    requires j in s.hist.made
  {
    var m := s.hist.made[j];
    && j in t.hist.made && t.hist.made[j] == m
    && SameAt(s.store, t.store, j) && (SameAt(s.saved, t.saved, j) || SameAt(s.store, t.saved, j))
    && SameAt(s.uploads, t.uploads, j) && SameAt(s.opens, t.opens, j)
    && SameAt(s.names, t.names, m.temp) && SameAt(s.inodes, t.inodes, m.ino)
    && |s.handles| <= |t.handles|
    && (forall h :: 0 <= h < |t.handles| && t.handles[h].id == j ==> h < |s.handles| && t.handles[h] == s.handles[h])
    && (forall h :: 0 <= h < |s.handles| && s.handles[h].id == j ==> t.handles[h] == s.handles[h])
    && (forall i :: 0 <= i < |t.hist.published| && t.hist.published[i].id == j ==>
          i < |s.hist.published| && t.hist.published[i] == s.hist.published[i])
  }

  lemma UntouchedOk(s: State, t: State, j: Id, sha: Sha)
    requires j in s.hist.made && UploadOk(s, j, sha) && Untouched(s, t, j)
    ensures UploadOk(t, j, sha)
  {
    var m := s.hist.made[j];
    forall h | 0 <= h < |t.handles| && t.handles[h].id == j
      ensures HandleOk(t.handles[h], m, Listed(t, h), m.temp in t.names, sha)
    {
      assert HandleOk(s.handles[h], m, Listed(s, h), m.temp in s.names, sha);
    }
    assert Frozen(s, j) ==> Frozen(t, j);
  }

  /** What a step on upload `id` leaves of the others, and of the removals of others in progress. */
  ghost predicate Others(s: State, t: State, id: Id) {
    && s.hist.made.Keys <= t.hist.made.Keys && |s.removals| <= |t.removals|
    && |s.handles| <= |t.handles| && (forall h :: 0 <= h < |s.handles| ==> t.handles[h].id == s.handles[h].id)
    && (forall i :: 0 <= i < |s.removals| ==>
         t.removals[i].id == s.removals[i].id && (s.removals[i].id != id ==> t.removals[i] == s.removals[i]))
    && (forall i :: |s.removals| <= i < |t.removals| ==> t.removals[i].id == id)
    && forall j :: j in s.hist.made && j != id ==> Untouched(s, t, j)
  }

  // ---- Changes that are about one upload ----------------------------------------------------

  /** The change reaches nothing that is another upload's. */
  ghost predicate Own(s: State, id: Id, c: Change)
    requires id in s.hist.made
  {
    var m := s.hist.made[id];
    && (c.unlink.Some? ==> c.unlink.value == m.temp)
    && (c.rename.Some? ==> c.rename.value == Rename(m.temp, m.path) && m.temp in s.names && !IsTempName(m.path))
    && (c.file.Some? ==> c.file.value.ino == m.ino)
    && (c.handle.Some? ==>
          && c.handle.value.h < |s.handles| && c.handle.value.u.id == id == s.handles[c.handle.value.h].id
          && c.listing.None?)
    && (c.listing.Some? ==> c.listing.value.id == id)
    && (c.removal.Some? ==> c.removal.value.i < |s.removals| && s.removals[c.removal.value.i].id == id && c.begin.None?)
    && (c.published.Some? ==> c.published.value.id == id)
  }

  lemma ApplyUntouched(s: State, id: Id, c: Change, j: Id)
    requires id in s.hist.made && Own(s, id, c)
    requires j in s.hist.made && j != id && !Overlap(s.hist.made[j], s.hist.made[id]) && IsTempName(s.hist.made[j].temp)
    ensures Untouched(s, Apply(s, id, c), j)
  {
  }

  lemma ApplyUntouchedOk(s: State, id: Id, c: Change, j: Id, sha: Sha)
    requires Inv(s, sha) && id in s.hist.made && Own(s, id, c) && j in s.hist.made && j != id
    ensures Untouched(s, Apply(s, id, c), j)
  {
    assert UploadOk(s, j, sha);
    ApplyUntouched(s, id, c, j);
  }

  lemma ApplyKeepsCounts(s: State, id: Id, c: Change)
    requires id in s.hist.made && Own(s, id, c)
    ensures var t := Apply(s, id, c);
            && s.hist.made.Keys <= t.hist.made.Keys && |s.removals| <= |t.removals|
            && |s.handles| <= |t.handles| && (forall h :: 0 <= h < |s.handles| ==> t.handles[h].id == s.handles[h].id)
            && (forall i :: 0 <= i < |s.removals| ==>
                  t.removals[i].id == s.removals[i].id && (s.removals[i].id != id ==> t.removals[i] == s.removals[i]))
            && (forall i :: |s.removals| <= i < |t.removals| ==> t.removals[i].id == id)
  {
  }

  lemma ApplyOthers(s: State, id: Id, c: Change, sha: Sha)
    requires Inv(s, sha) && id in s.hist.made && Own(s, id, c)
    ensures Others(s, Apply(s, id, c), id)
  {
    ApplyKeepsCounts(s, id, c);
    forall j | j in s.hist.made && j != id ensures Untouched(s, Apply(s, id, c), j) {
      ApplyUntouchedOk(s, id, c, j, sha);
    }
  }

  lemma ApplyKnown(s: State, id: Id, c: Change)
    requires Known(s) && id in s.hist.made && Own(s, id, c)
    ensures Known(Apply(s, id, c))
  {
  }

  ghost predicate Unpublished(s: State, id: Id) {
    forall i :: 0 <= i < |s.hist.published| ==> s.hist.published[i].id != id
  }

  lemma ApplyApart(s: State, id: Id, c: Change)
    requires Apart(s) && id in s.hist.made && Own(s, id, c) && (c.published.Some? ==> Unpublished(s, id))
    ensures Apart(Apply(s, id, c))
  {
    var t := Apply(s, id, c);
    forall i, j | i in t.hist.made && j in t.hist.made && Overlap(t.hist.made[i], t.hist.made[j]) ensures i == j {
      assert Overlap(s.hist.made[i], s.hist.made[j]);
    }
  }

  /** A removal stays in order, or moves on to a stage that is. */
  ghost predicate RemovalsMove(s: State, id: Id, c: Change) {
    && (c.begin.Some? ==> RemovalOk(s, Removal(id, c.begin.value)))
    && (c.removal.Some? ==>
          && c.removal.value.i < |s.removals| && s.removals[c.removal.value.i].id == id
          && RemovalOk(Apply(s, id, c), Removal(id, c.removal.value.stage)))
  }

  lemma RemovalStays(s: State, id: Id, c: Change, r: Removal)
    requires RemovalOk(s, r) && (id in s.hist.made ==> Own(s, id, c))
    requires id !in s.hist.made ==> c.handle.None? && c.rename.None?
    requires forall j :: j in s.hist.made ==> IsTempName(s.hist.made[j].temp)
    ensures RemovalOk(Apply(s, id, c), r)
  {
  }

  lemma ApplyRemovals(s: State, id: Id, c: Change)
    requires RemovalsOk(s) && RemovalsMove(s, id, c)
    requires (id in s.hist.made ==> Own(s, id, c)) && (id !in s.hist.made ==> c.handle.None? && c.rename.None?)
    requires forall j :: j in s.hist.made ==> IsTempName(s.hist.made[j].temp)
    ensures RemovalsOk(Apply(s, id, c))
  {
    var t := Apply(s, id, c);
    forall i | 0 <= i < |t.removals| ensures RemovalOk(t, t.removals[i]) {
      if i == |s.removals| {
        RemovalStays(s, id, c, t.removals[i]);
      } else if t.removals[i] == s.removals[i] {
        assert RemovalOk(s, s.removals[i]);
        RemovalStays(s, id, c, s.removals[i]);
      }
    }
  }

  // ---- The upload itself --------------------------------------------------------------------

  predicate Static(m: Info, n: Info) {
    n == m.(fed := n.fed, kept := n.kept)
  }

  /** The temporary name after a change to its own upload. */
  predicate Named(s: State, m: Info, c: Change) {
    m.temp in s.names && c.unlink.None? && c.rename.None?
  }

  predicate WillBeListed(s: State, h: nat, c: Change)
    requires h < |s.handles|
  {
    Listed(s, h) && !c.unlist
  }

  /** A handle that could not write cannot begin to. */
  predicate NoNewWriter(u: Upload, v: Upload) {
    (v.file.Some? ==> u.file.Some?) && (v.work.Renaming? ==> u.work.Renaming? || u.file.Some?)
  }

  /** The file, its history and the record move together. */
  predicate FileSound(m: Info, c: Change) {
    && c.fed.Some? == c.file.Some? && (c.fed.Some? ==> c.fed.value == c.file.value.bytes)
    && (c.op.Write? ==> Shape(m, c.op.rec) && m.kept <= c.op.rec.offset)
    && NewInfo(m, c).kept <= |NewInfo(m, c).fed| <= m.size
  }

  /** The handle that changes or begins is in order, and the others do not notice. */
  ghost predicate HandleSound(s: State, id: Id, c: Change, sha: Sha)
    requires id in s.hist.made && Own(s, id, c)
  {
    var m := s.hist.made[id];
    var n := NewInfo(m, c);
    && (c.unlist ==> c.handle.Some? && Listed(s, c.handle.value.h))
    && (n == m || id !in s.uploads || (c.handle.Some? && Listed(s, c.handle.value.h)))
    && (c.handle.Some? ==> HandleOk(c.handle.value.u, n, WillBeListed(s, c.handle.value.h, c), Named(s, m, c), sha))
    && (c.listing.Some? ==> id !in s.uploads && HandleOk(c.listing.value, n, true, Named(s, m, c), sha))
  }

  /** What has been published stays as it is. */
  ghost predicate WriterSound(s: State, id: Id, c: Change)
    requires id in s.hist.made && Own(s, id, c)
  {
    && c.published.None?
    && (|| Unpublished(s, id)
        || (&& c.fed.None? && c.listing.None?
            && (c.slot.Filled? ==> !c.slot.opening.Prepared? && !c.slot.opening.Stored?)
            && (c.handle.Some? ==> NoNewWriter(s.handles[c.handle.value.h], c.handle.value.u))))
  }

  ghost predicate Sound(s: State, id: Id, c: Change, sha: Sha)
    requires id in s.hist.made
  {
    && Own(s, id, c) && FileSound(s.hist.made[id], c) && HandleSound(s, id, c, sha)
    && OpenOk(Apply(s, id, c), id, NewInfo(s.hist.made[id], c))
  }

  lemma ApplyFile(s: State, id: Id, c: Change)
    requires id in s.hist.made && Own(s, id, c) && FileSound(s.hist.made[id], c)
    requires FileOk(s, s.hist.made[id]) && RecordsOk(s, id, s.hist.made[id])
    ensures var n := NewInfo(s.hist.made[id], c); FileOk(Apply(s, id, c), n) && RecordsOk(Apply(s, id, c), id, n)
  {
  }

  /** A handle that does not change: it is not engaged, or nothing it depends on changes. */
  lemma OtherHandle(u: Upload, m: Info, n: Info, listed: bool, named: bool, still: bool, sha: Sha)
    requires HandleOk(u, m, listed, named, sha) && Static(m, n) && (n == m || !listed) && (still ==> named)
    ensures HandleOk(u, n, listed, still, sha)
  {
  }

  lemma ApplyHandle(s: State, id: Id, c: Change, h: nat, sha: Sha)
    requires id in s.hist.made && Own(s, id, c) && HandleSound(s, id, c, sha) && HandlesOk(s, id, s.hist.made[id], sha)
    requires h < |s.handles| && s.handles[h].id == id && (c.handle.Some? ==> c.handle.value.h != h)
    ensures HandleOk(s.handles[h], NewInfo(s.hist.made[id], c), Listed(s, h), Named(s, s.hist.made[id], c), sha)
  {
    var m := s.hist.made[id];
    assert HandleOk(s.handles[h], m, Listed(s, h), m.temp in s.names, sha);
    OtherHandle(s.handles[h], m, NewInfo(m, c), Listed(s, h), m.temp in s.names, Named(s, m, c), sha);
  }

  lemma NameAfter(s: State, id: Id, c: Change)
    requires id in s.hist.made && Own(s, id, c) && IsTempName(s.hist.made[id].temp)
    ensures s.hist.made[id].temp in NewNames(s, c) <==> Named(s, s.hist.made[id], c)
  {
  }

  lemma ListedAfter(s: State, id: Id, c: Change, h: nat)
    requires id in s.hist.made && Own(s, id, c) && (c.listing.Some? ==> id !in s.uploads)
    requires h < |s.handles| && s.handles[h].id == id && (c.unlist ==> c.handle.Some? && Listed(s, c.handle.value.h))
    ensures id in NewUploads(s, id, c) && NewUploads(s, id, c)[id] == h <==> WillBeListed(s, h, c)
  {
  }

  lemma ApplyOneHandle(s: State, id: Id, c: Change, h: nat, sha: Sha)
    requires id in s.hist.made && Own(s, id, c) && HandleSound(s, id, c, sha) && HandlesOk(s, id, s.hist.made[id], sha)
    requires h < |s.handles| && s.handles[h].id == id
    ensures var m := s.hist.made[id];
            HandleOk(NewHandles(s, c)[h], NewInfo(m, c), WillBeListed(s, h, c), Named(s, m, c), sha)
  {
    if c.handle.None? || c.handle.value.h != h { ApplyHandle(s, id, c, h, sha); }
  }

  lemma OldHandleAfter(s: State, id: Id, c: Change, h: nat, sha: Sha)
    requires id in s.hist.made && Own(s, id, c) && HandleSound(s, id, c, sha) && HandlesOk(s, id, s.hist.made[id], sha)
    requires IsTempName(s.hist.made[id].temp) && h < |s.handles| && s.handles[h].id == id
    ensures h < |NewHandles(s, c)| && NewHandles(s, c)[h].id == id
    ensures HandleOk(NewHandles(s, c)[h], NewInfo(s.hist.made[id], c),
                     && id in NewUploads(s, id, c)
                     && NewUploads(s, id, c)[id] == h, s.hist.made[id].temp in NewNames(s, c), sha)
  {
    NameAfter(s, id, c);
    ApplyOneHandle(s, id, c, h, sha);
    ListedAfter(s, id, c, h);
  }

  lemma HandleInPlace(s: State, id: Id, c: Change, h: nat, sha: Sha)
    requires id in s.hist.made && h < |NewHandles(s, c)| && NewHandles(s, c)[h].id == id
    requires HandleOk(NewHandles(s, c)[h], NewInfo(s.hist.made[id], c),
                      && id in NewUploads(s, id, c)
                      && NewUploads(s, id, c)[id] == h, s.hist.made[id].temp in NewNames(s, c), sha)
    ensures var t, n := Apply(s, id, c), NewInfo(s.hist.made[id], c);
            HandleOk(t.handles[h], n, Listed(t, h), n.temp in t.names, sha)
  {
  }

  lemma NewHandleAfter(s: State, id: Id, c: Change, sha: Sha)
    requires id in s.hist.made && Own(s, id, c) && HandleSound(s, id, c, sha)
    requires IsTempName(s.hist.made[id].temp) && c.listing.Some?
    ensures var t, n := Apply(s, id, c), NewInfo(s.hist.made[id], c);
            HandleOk(t.handles[|s.handles|], n, Listed(t, |s.handles|), n.temp in t.names, sha)
  {
    NameAfter(s, id, c);
  }

  lemma ApplyHandles(s: State, id: Id, c: Change, sha: Sha)
    requires id in s.hist.made && Own(s, id, c) && HandleSound(s, id, c, sha) && HandlesOk(s, id, s.hist.made[id], sha)
    requires IsTempName(s.hist.made[id].temp)
    ensures HandlesOk(Apply(s, id, c), id, NewInfo(s.hist.made[id], c), sha)
  {
    var t, n := Apply(s, id, c), NewInfo(s.hist.made[id], c);
    forall h | 0 <= h < |t.handles| && t.handles[h].id == id
      ensures HandleOk(t.handles[h], n, Listed(t, h), n.temp in t.names, sha)
    {
      if h < |s.handles| {
        assert s.handles[h].id == id;
        OldHandleAfter(s, id, c, h, sha);
        HandleInPlace(s, id, c, h, sha);
      } else {
        NewHandleAfter(s, id, c, sha);
      }
    }
  }

  lemma ApplyPublished(s: State, id: Id, c: Change, sha: Sha)
    requires id in s.hist.made && Own(s, id, c) && WriterSound(s, id, c) && PublishedOk(s, id, s.hist.made[id], sha)
    requires IsTempName(s.hist.made[id].temp)
    ensures PublishedOk(Apply(s, id, c), id, NewInfo(s.hist.made[id], c), sha)
  {
    if !Unpublished(s, id) {
      assert Frozen(s, id);
      assert Frozen(Apply(s, id, c), id);
    }
  }

  /** Whoever can still write shows that nothing was published. */
  lemma WriterUnpublished(s: State, id: Id, h: nat, sha: Sha)
    requires id in s.hist.made && PublishedOk(s, id, s.hist.made[id], sha)
    requires || s.hist.made[id].temp in s.names || (id in s.opens && (s.opens[id].Prepared? || s.opens[id].Stored?))
             || (h < |s.handles| && s.handles[h].id == id && (s.handles[h].file.Some? || s.handles[h].work.Renaming?))
    ensures Unpublished(s, id)
  {
  }

  lemma TempNames(s: State, sha: Sha)
    requires Inv(s, sha)
    ensures forall j :: j in s.hist.made ==> IsTempName(s.hist.made[j].temp)
  {
    forall j | j in s.hist.made ensures IsTempName(s.hist.made[j].temp) { assert UploadOk(s, j, sha); }
  }

  /** Putting a step together: the upload it is about, and the frame. */
  lemma StepOn(s: State, t: State, id: Id, sha: Sha)
    requires Inv(s, sha) && Others(s, t, id) && t.hist.made.Keys == s.hist.made.Keys && id in s.hist.made
    requires Apart(t) && Known(t) && RemovalsOk(t) && UploadOk(t, id, sha)
    ensures Inv(t, sha)
  {
    forall j | j in t.hist.made ensures UploadOk(t, j, sha) {
      if j != id { UntouchedOk(s, t, j, sha); }
    }
  }

  lemma ApplyFrame(s: State, id: Id, c: Change, sha: Sha)
    requires Inv(s, sha) && id in s.hist.made && Own(s, id, c) && RemovalsMove(s, id, c)
    requires c.published.Some? ==> Unpublished(s, id)
    ensures var t := Apply(s, id, c); Others(s, t, id) && Apart(t) && Known(t) && RemovalsOk(t)
  {
    ApplyOthers(s, id, c, sha);
    ApplyApart(s, id, c);
    ApplyKnown(s, id, c);
    TempNames(s, sha);
    ApplyRemovals(s, id, c);
  }

  lemma ApplyUpload(s: State, id: Id, c: Change, sha: Sha)
    requires id in s.hist.made && UploadOk(s, id, sha) && Sound(s, id, c, sha)
    requires PublishedOk(Apply(s, id, c), id, NewInfo(s.hist.made[id], c), sha)
    ensures UploadOk(Apply(s, id, c), id, sha)
  {
    ApplyFile(s, id, c);
    ApplyHandles(s, id, c, sha);
  }

  lemma FrameInv(s: State, id: Id, c: Change, sha: Sha)
    requires Inv(s, sha) && id in s.hist.made && Own(s, id, c) && RemovalsMove(s, id, c)
    requires c.published.Some? ==> Unpublished(s, id)
    requires UploadOk(Apply(s, id, c), id, sha)
    ensures Inv(Apply(s, id, c), sha) && Others(s, Apply(s, id, c), id)
  {
    ApplyFrame(s, id, c, sha);
    StepOn(s, Apply(s, id, c), id, sha);
  }

  lemma ApplyInv(s: State, id: Id, c: Change, sha: Sha)
    requires Inv(s, sha) && id in s.hist.made && Sound(s, id, c, sha) && WriterSound(s, id, c) && RemovalsMove(s, id, c)
    ensures Inv(Apply(s, id, c), sha) && Others(s, Apply(s, id, c), id)
  {
    assert UploadOk(s, id, sha);
    ApplyPublished(s, id, c, sha);
    ApplyUpload(s, id, c, sha);
    FrameInv(s, id, c, sha);
  }
}
