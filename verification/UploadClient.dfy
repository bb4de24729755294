/** The command-line peer of an upload (clients/cli/file_command.go), run against the service. */
module UploadClient {
  import opened Prelude
  import opened UploadState
  import opened UploadMachine
  import opened UploadInvariant
  import opened UploadScripts
  import opened UploadCalls
  import opened UploadService

  /** Largest advertised chunk the command line is willing to use. */
  const MAX_CLI_CHUNK := 0x10_0000

  /** Handle `h` is uploading `local` for this request and has `offset` bytes of it, on disk and hashed. */
  ghost predicate Uploading(s: State, h: nat, req: OpenRequest, local: seq<byte>, offset: nat) {
    && h < |s.handles| && offset <= |local|
    && (var u := s.handles[h];
        && u.id == req.newId && u.path == req.target && u.temp == req.newTemp && u.overwrite == req.overwrite
        && u.size == |local|
        && u.offset == offset && u.hashed == local[..offset] && u.file == Some(req.newIno)
        && u.work.Idle? && u.closing.Running?)
    && req.newTemp in s.names && s.names[req.newTemp] == req.newIno && req.newIno in s.inodes
    && s.inodes[req.newIno] == local[..offset]
  }

  // ---- Opening ------------------------------------------------------------------------------

  /** The expiry pass removes no name that is not of the temporary form. */
  lemma PassSparesTargets(s: State, now: int, order: seq<Id>, saves: Saves, target: Path, sha: Sha)
    requires Inv(s, sha) && Distinct(order) && !IsTempName(target)
    ensures target in ExpireList(s, now, order, saves).names <==> target in s.names
  {
    PassUnlinksExpired(s, now, order, saves);
    forall id | id in order && Drops(s, now, id) ensures s.store[id].temp != target { assert UploadOk(s, id, sha); }
  }

  lemma CreatedAttaches(s: State, req: OpenRequest, putOk: bool, local: seq<byte>)
    requires req.size == |local|
    ensures var t := AttachThrough(Created(s, req), req.newId, putOk);
            && (putOk ==> Uploading(t, |s.handles|, req, local, 0)) && req.newId in t.store
            && t.names == s.names[req.newTemp := req.newIno]
  {
    PutAttaches(s, req, putOk);
    if putOk { ListAttaches(Advanced(Created(s, req), req.newId, true), req, local); }
  }

  lemma PutAttaches(s: State, req: OpenRequest, putOk: bool)
    requires 0 <= req.size
    ensures var t := Created(s, req); var r := Advanced(t, req.newId, putOk);
            && r.handles == s.handles && r.names == t.names && r.inodes == t.inodes && req.newId in r.store
            && if putOk then req.newId in r.opens && r.opens[req.newId] == Stored(NewRecord(req), req.newIno, [], req)
               else req.newId !in r.opens
  {
  }

  lemma ListAttaches(s: State, req: OpenRequest, local: seq<byte>)
    requires req.newId in s.opens && req.size == |local|
    requires s.opens[req.newId] == Stored(NewRecord(req), req.newIno, [], req)
    requires req.newTemp in s.names && s.names[req.newTemp] == req.newIno && req.newIno in s.inodes
    requires s.inodes[req.newIno] == []
    ensures var t := Advanced(s, req.newId, true);
            Uploading(t, |s.handles|, req, local, 0) && t.store == s.store && t.names == s.names
  {
    assert local[..0] == [];
  }

  // ---- Sending ------------------------------------------------------------------------------

  lemma FeedUploads(s: State, h: nat, req: OpenRequest, local: seq<byte>, offset: nat, n: nat, now: int, putOk: bool)
    requires Uploading(s, h, req, local, offset) && offset + n <= |local| && 0 < n <= CHUNK_LIMIT
    ensures var t := Worked(Fed(s, h, offset, local[offset..offset + n], now), h, putOk);
            t.names == s.names && Uploading(t, h, req, local, offset + n)
  {
    var raw := local[offset..offset + n];
    FedUploads(s, h, req, local, offset, n, now);
    var t := Fed(s, h, offset, raw, now);
    FedExtends(s, h, raw, now);
    WorkedExtends(s, t, h, raw, putOk);
    WorkedFiles(t, h, putOk);
  }

  lemma WorkedFiles(s: State, h: nat, putOk: bool)
    requires h < |s.handles| && !s.handles[h].work.Renaming?
    ensures Worked(s, h, putOk).inodes == s.inodes
  {
  }

  lemma FedUploads(s: State, h: nat, req: OpenRequest, local: seq<byte>, offset: nat, n: nat, now: int)
    requires Uploading(s, h, req, local, offset) && offset + n <= |local| && 0 < n <= CHUNK_LIMIT
    ensures var t := Fed(s, h, offset, local[offset..offset + n], now);
            req.newIno in t.inodes && t.inodes[req.newIno] == local[..offset + n]
    ensures s.handles[h].hashed + local[offset..offset + n] == local[..offset + n]
  {
    assert local[..offset] + local[offset..offset + n] == local[..offset + n];
    assert WriteAt(local[..offset], offset, local[offset..offset + n]) == local[..offset + n];
  }

  /** The chunk loop: it stops early only when the server refuses a chunk for its size. */
  method SendChunks(service: Service, h: nat, req: OpenRequest, local: seq<byte>, chunkBytes: nat, frames: nat -> bool)
    returns (ok: bool, offset: nat)
    requires Uploading(service.View(), h, req, local, 0) && 0 < chunkBytes
    modifies service
    ensures Uploading(service.View(), h, req, local, offset) && service.names == old(service.names)
    ensures ok <==> Min(chunkBytes, |local|) <= 0x1_0000
    ensures ok ==> offset == |local|
  {
    offset := 0;
    while offset < |local|
      invariant Uploading(service.View(), h, req, local, offset) && service.names == old(service.names)
      invariant offset <= |local| && (offset > 0 ==> Min(chunkBytes, |local|) <= 0x1_0000)
    {
      var n := Min(chunkBytes, |local| - offset);
      if n <= CHUNK_LIMIT { FeedUploads(service.View(), h, req, local, offset, n, req.now, frames(offset)); }
      var accepted := service.HandleData(h, offset, local[offset..offset + n], req.now, frames(offset));
      if !accepted {
        return false, offset;
      }
      offset := offset + n;
    }
    return true, offset;
  }

  // ---- The whole command --------------------------------------------------------------------

  /** Which saves of the store succeed: in the expiry pass, for the open, for the frame at an offset, at the end. */
  datatype Disk = Disk(pass: Saves, open: bool, frames: nat -> bool, last: bool)

  /** FileUploadOpen and its reply. */
  method OpenFor(service: Service, local: seq<byte>, req: OpenRequest, disk: Disk, ghost sha: Sha)
    returns (accepted: bool, h: nat)
    requires service.Quiescent() && Inv(service.View(), sha) && FreshUpload(service.View(), req)
    requires req.size == |local| && req.resume.NoResume? && !IsTempName(req.target)
    modifies service
    ensures accepted <==> (req.overwrite || req.target !in old(service.names)) && disk.open
    ensures accepted ==> Uploading(service.View(), h, req, local, 0) && (req.overwrite || req.target !in service.names)
    ensures !accepted ==> (req.newId in service.store <==> req.overwrite || req.target !in old(service.names))
  {
    h := |service.handles|;
    ghost var before := service.View();
    var status, order := service.OpenUpload(req, disk.pass, true, disk.open, sha);
    accepted := status == Ok;
    PassSparesTargets(before, req.now, order, disk.pass, req.target, sha);
    PassDropsExpired(before, req.now, order, disk.pass);
    CreatedAttaches(ExpireList(before, req.now, order, disk.pass), req, disk.open, local);
  }

  /**
   uploadEndpointFile for a service whose other uploads stand still. The upload completes exactly when the
   open was accepted and every chunk stays within what the server takes, whichever other saves fail; then the
   target holds the local file, byte for byte. Otherwise the transfer is cancelled; a record is left behind
   exactly if the open failed because the store could not be saved.
   */
  method UploadEndpointFile(service: Service, local: seq<byte>, req: OpenRequest, chunkBytes: int, disk: Disk, sha: Sha)
    returns (completed: bool)
    requires service.Quiescent() && Inv(service.View(), sha) && FreshUpload(service.View(), req)
    requires req.size == |local| && req.resume.NoResume? && !IsTempName(req.target)
    modifies service
    ensures completed <==>
              && (req.overwrite || req.target !in old(service.names)) && disk.open
              && 0 < chunkBytes <= 0x10_0000 && Min(chunkBytes, |local|) <= 0x1_0000
    ensures completed ==>
              && req.target in service.names && service.names[req.target] in service.inodes
              && service.inodes[service.names[req.target]] == local
    ensures !completed ==>
              (req.newId in service.store <==> (req.overwrite || req.target !in old(service.names)) && !disk.open)
  {
    var accepted, h := OpenFor(service, local, req, disk, sha);
    if !accepted {
      return false;
    }
    if chunkBytes <= 0 || chunkBytes > MAX_CLI_CHUNK {
      service.AbortAndRemove(h, req.now, disk.last);
      return false;
    }
    var sent, offset := SendChunks(service, h, req, local, chunkBytes, disk.frames);
    if !sent {
      service.AbortAndRemove(h, req.now, disk.last);
      return false;
    }
    assert local[..|local|] == local;
    completed := service.HandleFinish(h, |local|, sha(local), sha, disk.last, true);
  }
}
