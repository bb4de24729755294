/**
 The data of the upload service in access/files/transfer_service.go.

 A `State` holds what survives a process crash (the saved transfer store and the disk), what does
 not (the store in memory, the table of active uploads, the upload handles, the opens and removals
 in progress) and a history that the program does not keep, used to say what a run has done.
 SHA-256 is a parameter `sha`: nothing about it is assumed.
 */
module UploadState {
  import opened Prelude
  import Decimal

  type Id = string
  type Owner = string
  type Digest = seq<byte>
  type Sha = seq<byte> -> Digest
  type Ino = nat

  datatype Path = Path(dir: string, base: string)

  /** Largest upload data frame accepted, whatever chunk size was advertised. */
  const CHUNK_LIMIT := 65536
  /** Nanoseconds. */
  const RESUME_TTL := 900_000_000_000
  const PERSIST_INTERVAL := 500_000_000

  const TEMP_PREFIX := ".anytty-upload-"
  const TEMP_SUFFIX := ".part"

  function TempBase(n: nat): string {
    TEMP_PREFIX + Decimal.Format(n) + TEMP_SUFFIX
  }

  /** The names that os.CreateTemp(dir, ".anytty-upload-*.part") can return: a random uint32 stands for the star. */
  predicate IsTempName(p: Path) {
    exists n: nat :: n < 0x1_0000_0000 && p.base == TempBase(n)
  }

  /** A transfer record. */
  datatype Record = Record(
    path: Path, size: nat, offset: nat, overwrite: bool, temp: Path, owner: Owner, expiresAt: int)

  /** How far Close or abortAndRemove has got: `Waiting` for the handle's lock, then its steps in order. */
  datatype Stage = Waiting | Saving(rec: Record) | Unlisting | Removing | Deleting | Ended

  /** The once-guard of a handle, and who took it. */
  datatype Closing = Running | Stopping(abort: bool, stage: Stage)

  /** What a frame still has to do under the handle's lock. */
  datatype Work = Idle | Putting(rec: Record) | Renaming(digest: Digest) | Forgetting | Answering

  /** One handle; `hashed` is everything written to its running hash. */
  datatype Upload = Upload(
    id: Id, path: Path, temp: Path, overwrite: bool, owner: Owner, size: nat,
    file: Option<Ino>, hashed: seq<byte>, offset: nat,
    completed: bool, lastSave: Option<int>, closing: Closing, work: Work)

  datatype ResumeToken = NoResume | BadToken | FromToken(id: Id)

  /** An open request, with what the operating system and the random source supply for it. */
  datatype OpenRequest = OpenRequest(
    target: Path, size: int, overwrite: bool, resume: ResumeToken, owner: Owner, now: int,
    newId: Id, newTemp: Path, newIno: Ino)

  /** How far an open has got: takeover, store lookup, validation, truncation and hashing, store update, listing. */
  datatype Opening =
    | Displacing(h: nat, req: OpenRequest)
    | Looking(req: OpenRequest)
    | Validating(rec: Record, req: OpenRequest)
    | Discarding
    | Prepared(rec: Record, ino: Ino, hashed: seq<byte>, req: OpenRequest)
    | Stored(rec: Record, ino: Ino, hashed: seq<byte>, req: OpenRequest)

  /** How far a cancel, or the expiry of one record, has got, and what it answered. */
  datatype RemovalStage =
    | Testing(temp: Path)
    | Aborting(h: nat)
    | LookingUp
    | Unlinking(temp: Path)
    | Erasing
    | Answered(yes: bool)

  datatype Removal = Removal(id: Id, stage: RemovalStage)

  /** What one successful rename installed, and what the client had declared. */
  datatype Publication = Publication(handle: nat, id: Id, path: Path, bytes: seq<byte>, size: int, digest: Digest)

  /**
   What was fixed when an upload was created, `fed`, its accepted bytes in effect, and `kept`, the
   largest offset that the store in memory has held.
   */
  datatype Info = Info(temp: Path, ino: Ino, path: Path, size: nat, overwrite: bool, fed: seq<byte>, kept: nat)

  datatype History = History(made: map<Id, Info>, published: seq<Publication>)

  datatype State = State(
    store: map<Id, Record>,
    saved: map<Id, Record>,
    names: map<Path, Ino>,
    inodes: map<Ino, seq<byte>>,
    uploads: map<Id, nat>,
    handles: seq<Upload>,
    opens: map<Id, Opening>,
    removals: seq<Removal>,
    hist: History)

  const INITIAL := State(map[], map[], map[], map[], map[], [], map[], [], History(map[], []))

  datatype Status = Ok | Invalid | Exists | Unavailable | Failed

  // ---- Small pieces -------------------------------------------------------------------------

  /** Bytes of a file after writing `raw` at `offset`; a gap would read as zero bytes. */
  function WriteAt(content: seq<byte>, offset: nat, raw: seq<byte>): seq<byte> {
    var padded := if offset <= |content| then content else content + seq(offset - |content|, i => 0 as byte);
    padded[..offset] + raw + (if offset + |raw| <= |padded| then padded[offset + |raw|..] else [])
  }

  function Get<K, V>(m: map<K, V>, k: K): Option<V> {
    if k in m then Some(m[k]) else None
  }

  /** What persist writes, if it writes: not when throttled, and never a new record. */
  function Persisted(stored: Option<Record>, u: Upload, now: int, force: bool): Option<Record> {
    if !force && u.lastSave.Some? && now - u.lastSave.value < PERSIST_INTERVAL then None
    else if stored.None? then None
    else Some(stored.value.(offset := u.offset, expiresAt := now + RESUME_TTL))
  }

  function SavedAt(u: Upload, now: int, force: bool): Upload {
    if !force && u.lastSave.Some? && now - u.lastSave.value < PERSIST_INTERVAL then u else u.(lastSave := Some(now))
  }

  predicate DataAccepted(u: Upload, offset: int, raw: seq<byte>) {
    && offset == u.offset && 0 < |raw| <= CHUNK_LIMIT && u.offset + |raw| <= u.size
    && u.file.Some?
  }

  predicate FinishAccepted(u: Upload, size: int, digest: Digest, sha: Sha) {
    size == u.size && u.offset == u.size && digest == sha(u.hashed) && u.file.Some?
  }

  /** The record of a fresh upload, and that of any upload as its open stores it. */
  function NewRecord(req: OpenRequest): Record
    requires 0 <= req.size
  {
    Record(req.target, req.size, 0, req.overwrite, req.newTemp, req.owner, req.now + RESUME_TTL)
  }

  function Renewed(rec: Record, req: OpenRequest): Record {
    rec.(owner := req.owner, expiresAt := req.now + RESUME_TTL)
  }

  function NewHandle(id: Id, rec: Record, ino: Ino, hashed: seq<byte>, req: OpenRequest): Upload
    requires 0 <= req.size
  {
    Upload(id, req.target, rec.temp, rec.overwrite, req.owner, req.size, Some(ino), hashed, rec.offset,
           false, None, Running, Idle)
  }
}
