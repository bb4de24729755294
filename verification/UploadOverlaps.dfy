/**
 Why opens of one upload must not overlap: exactly then a publish can be wrong.
 */
module UploadOverlaps {
  import opened Prelude
  import opened UploadState
  import opened UploadMachine
  import opened UploadInvariant
  import opened UploadScripts
  import opened UploadTargets
  import opened UploadSerial
  import opened UploadFailures

  function Moves(events: seq<Event>): seq<Move> {
    seq(|events|, i requires 0 <= i < |events| => Plain(events[i]))
  }

  lemma {:induction false} PlainKeepsBeside(b: Many, events: seq<Event>, sha: Sha)
    requires forall i :: 0 <= i < |events| ==> !events[i].Crash?
    ensures GoAll(b, Moves(events), sha) == Many(RunFrom(b.main, events, sha), b.beside)
  {
    if events != [] {
      var front := events[..|events| - 1];
      PlainKeepsBeside(b, front, sha);
      assert Moves(events)[..|events| - 1] == Moves(front);
    }
  }

  lemma GoSnoc(b: Many, moves: seq<Move>, m: Move, sha: Sha)
    ensures GoAll(b, moves + [m], sha) == Go(GoAll(b, moves, sha), m, sha)
  {
    assert (moves + [m])[..|moves|] == moves;
  }

  lemma {:induction false} GoConcat(b: Many, before: seq<Move>, after: seq<Move>, sha: Sha)
    ensures GoAll(b, before + after, sha) == GoAll(GoAll(b, before, sha), after, sha)
  {
    if after == [] {
      assert before + after == before;
    } else {
      var shorter := after[..|after| - 1];
      GoConcat(b, before, shorter, sha);
      assert before + after == before + shorter + [after[|after| - 1]];
      GoSnoc(b, before + shorter, after[|after| - 1], sha);
    }
  }

  // ---- Two opens of one upload, step by step ------------------------------------------------

  /** The record of an empty upload of one byte, with its file. */
  predicate Dormant(s: State, id: Id, rec: Record, ino: Ino) {
    && rec.offset == 0 && rec.size == 1 && rec.overwrite
    && id in s.hist.made && id in s.store && s.store[id] == rec && id !in s.uploads
    && rec.temp in s.names && s.names[rec.temp] == ino && ino in s.inodes
  }

  lemma Begins(s: State, id: Id, rec: Record, ino: Ino, req: OpenRequest, sha: Sha)
    requires Dormant(s, id, rec, ino) && 0 <= req.size && id !in s.opens
    ensures Step(s, Resume(id, req), sha) == s.(opens := s.opens[id := Looking(req)])
  {
    assert s.hist.made[id := s.hist.made[id]] == s.hist.made;
  }

  lemma Looks(s: State, id: Id, rec: Record, ino: Ino, req: OpenRequest, sha: Sha)
    requires Dormant(s, id, rec, ino) && req.target == rec.path && req.size == rec.size
    requires id in s.opens && s.opens[id] == Looking(req)
    ensures Step(s, OpenNext(id, true), sha) == s.(opens := s.opens[id := Validating(rec, req)])
  {
    assert s.hist.made[id := s.hist.made[id]] == s.hist.made;
  }

  /** Both opens have looked the record up. */
  predicate BothLooked(b: Many, id: Id, rec: Record, ino: Ino, req: OpenRequest) {
    && Dormant(b.main, id, rec, ino) && req.target == rec.path && req.size == rec.size
    && id in b.main.opens && b.main.opens[id] == Validating(rec, req) && 0 in b.beside
    && b.beside[0] == Beside(id, Validating(rec, req))
  }

  predicate FirstPrepared(s: State, id: Id, rec: Record, ino: Ino, req: OpenRequest) {
    && rec.temp in s.names && s.names[rec.temp] == ino && ino in s.inodes && s.inodes[ino] == []
    && id in s.opens && s.opens[id] == Prepared(rec, ino, [], req)
  }

  lemma FirstCuts(s: State, id: Id, rec: Record, ino: Ino, req: OpenRequest, sha: Sha)
    requires Dormant(s, id, rec, ino) && id in s.opens && s.opens[id] == Validating(rec, req)
    ensures FirstPrepared(Step(s, OpenNext(id, true), sha), id, rec, ino, req)
  {
    assert s.inodes[ino][..0] == [];
  }

  /** The first open is listed as handle `h`; its client has sent `bytes` and the file has `content`. */
  predicate FirstListed(s: State, id: Id, rec: Record, ino: Ino, h: nat, bytes: seq<byte>, content: seq<byte>) {
    && rec.temp in s.names && s.names[rec.temp] == ino && ino in s.inodes && s.inodes[ino] == content
    && h < |s.handles|
    && var u := s.handles[h];
       && u.id == id && u.temp == rec.temp && u.path == rec.path && u.overwrite && u.size == 1 && u.file == Some(ino)
       && u.hashed == bytes && u.offset == |bytes|
  }

  lemma FirstStores(s: State, id: Id, rec: Record, ino: Ino, req: OpenRequest, sha: Sha)
    requires FirstPrepared(s, id, rec, ino, req)
    ensures var t := Step(s, OpenNext(id, true), sha);
            && t.handles == s.handles && t.names == s.names && t.inodes == s.inodes && id in t.opens
            && t.opens[id] == Stored(rec, ino, [], req)
  {
  }

  lemma FirstLists(s: State, id: Id, rec: Record, ino: Ino, req: OpenRequest, sha: Sha)
    requires rec.offset == 0 && rec.size == 1 && rec.overwrite && req.target == rec.path && req.size == rec.size
    requires id in s.opens && s.opens[id] == Stored(rec, ino, [], req)
    requires rec.temp in s.names && s.names[rec.temp] == ino && ino in s.inodes && s.inodes[ino] == []
    ensures var t := Step(s, OpenNext(id, true), sha);
            FirstListed(t, id, rec, ino, |s.handles|, [], []) && t.handles[|s.handles|].work.Idle?
  {
  }

  lemma FirstFed(s: State, id: Id, rec: Record, ino: Ino, h: nat, sha: Sha)
    requires FirstListed(s, id, rec, ino, h, [], []) && s.handles[h].work.Idle?
    ensures var t := Step(s, DataFrame(h, 0, [0], 0), sha);
            FirstListed(t, id, rec, ino, h, [0], [0]) && (t.handles[h].work.Idle? || t.handles[h].work.Putting?)
  {
    OneByteWritten();
  }

  lemma FirstSaved(s: State, id: Id, rec: Record, ino: Ino, h: nat, sha: Sha)
    requires FirstListed(s, id, rec, ino, h, [0], [0]) && (s.handles[h].work.Idle? || s.handles[h].work.Putting?)
    ensures var t := Step(s, WorkNext(h, true), sha);
            FirstListed(t, id, rec, ino, h, [0], [0]) && t.handles[h].work.Idle?
  {
  }

  /** The second open cuts the file back to the offset that it looked up before the first one's byte was in. */
  lemma SecondCuts(s: State, id: Id, rec: Record, ino: Ino, req: OpenRequest, h: nat, sha: Sha)
    requires FirstListed(s, id, rec, ino, h, [0], [0]) && rec.offset == 0 && id in s.opens
    requires s.opens[id] == Validating(rec, req)
    ensures var t := Step(s, OpenNext(id, true), sha);
            t.names == s.names && t.handles == s.handles && ino in t.inodes && t.inodes[ino] == []
  {
    assert s.inodes[ino][..0] == [];
  }

  lemma FirstFinishes(s: State, h: nat, u: Upload, sha: Sha)
    requires h < |s.handles| && s.handles[h] == u && u.overwrite
    requires u.size == u.offset == 1 && u.hashed == [0] && u.file.Some? && u.work.Idle?
    ensures var t := Step(s, FinishFrame(h, 1, sha([0])), sha);
            && t.names == s.names && t.inodes == s.inodes && h < |t.handles|
            && t.handles[h] == u.(file := None, work := Renaming(sha([0])))
  {
  }

  lemma CutFileIsPublished(s: State, h: nat, ino: Ino, digest: Digest, sha: Sha)
    requires h < |s.handles| && s.handles[h].work == Renaming(digest) && s.handles[h].size == 1
    requires s.handles[h].temp in s.names && s.names[s.handles[h].temp] == ino && ino in s.inodes && s.inodes[ino] == []
    ensures !PublishesExact(Step(s, WorkNext(h, true), sha), sha)
  {
    var u, t := s.handles[h], Step(s, WorkNext(h, true), sha);
    var p := Publication(h, u.id, u.path, [], 1, digest);
    assert t.hist.published == s.hist.published + [p];
    assert p in t.hist.published;
  }

  // ---- The run ------------------------------------------------------------------------------

  ghost predicate GoesWrong(b: Many, moves: seq<Move>, sha: Sha) {
    (forall m :: m in moves && m.Plain? ==> !m.e.Create?) && !PublishesExact(GoAll(b, moves, sha).main, sha)
  }

  lemma Then(b: Many, m: Move, c: Many, rest: seq<Move>, sha: Sha)
    requires c == Go(b, m, sha) && GoesWrong(c, rest, sha) && (m.Plain? ==> !m.e.Create?)
    ensures GoesWrong(b, [m] + rest, sha)
  {
    GoSnoc(b, [], m, sha);
    assert [] + [m] == [m];
    GoConcat(b, [m], rest, sha);
  }

  lemma ItPublishes(b: Many, h: nat, u: Upload, ino: Ino, sha: Sha) returns (moves: seq<Move>)
    requires h < |b.main.handles| && b.main.handles[h] == u && u.overwrite
    requires u.size == u.offset == 1 && u.hashed == [0] && u.file.Some? && u.work.Idle?
    requires u.temp in b.main.names && b.main.names[u.temp] == ino && ino in b.main.inodes && b.main.inodes[ino] == []
    ensures GoesWrong(b, moves, sha)
  {
    var m1, m2 := Plain(FinishFrame(h, 1, sha([0]))), Plain(WorkNext(h, true));
    FirstFinishes(b.main, h, u, sha);
    var c := Go(b, m1, sha);
    CutFileIsPublished(c.main, h, ino, sha([0]), sha);
    assert GoesWrong(Go(c, m2, sha), [], sha);
    Then(c, m2, Go(c, m2, sha), [], sha);
    Then(b, m1, c, [m2] + [], sha);
    moves := [m1] + ([m2] + []);
  }

  lemma AfterByte(b: Many, id: Id, rec: Record, ino: Ino, req: OpenRequest, h: nat, sha: Sha) returns (moves: seq<Move>)
    requires FirstListed(b.main, id, rec, ino, h, [0], [0]) && b.main.handles[h].work.Idle?
    requires rec.offset == 0 && 0 in b.beside && b.beside[0] == Beside(id, Validating(rec, req))
    ensures GoesWrong(b, moves, sha)
  {
    var m := NextBeside(0, true);
    SecondCuts(Turned(b, 0), id, rec, ino, req, h, sha);
    var c := Go(b, m, sha);
    var rest := ItPublishes(c, h, b.main.handles[h], ino, sha);
    Then(b, m, c, rest, sha);
    moves := [m] + rest;
  }

  lemma AfterList(b: Many, id: Id, rec: Record, ino: Ino, req: OpenRequest, h: nat, sha: Sha) returns (moves: seq<Move>)
    requires FirstListed(b.main, id, rec, ino, h, [], []) && b.main.handles[h].work.Idle?
    requires rec.offset == 0 && 0 in b.beside && b.beside[0] == Beside(id, Validating(rec, req))
    ensures GoesWrong(b, moves, sha)
  {
    var m1, m2 := Plain(DataFrame(h, 0, [0], 0)), Plain(WorkNext(h, true));
    FirstFed(b.main, id, rec, ino, h, sha);
    var c := Go(b, m1, sha);
    FirstSaved(c.main, id, rec, ino, h, sha);
    var rest := AfterByte(Go(c, m2, sha), id, rec, ino, req, h, sha);
    Then(c, m2, Go(c, m2, sha), rest, sha);
    Then(b, m1, c, [m2] + rest, sha);
    moves := [m1] + ([m2] + rest);
  }

  lemma AfterCut(b: Many, id: Id, rec: Record, ino: Ino, req: OpenRequest, sha: Sha) returns (moves: seq<Move>)
    requires FirstPrepared(b.main, id, rec, ino, req) && req.target == rec.path && req.size == rec.size == 1
    requires rec.overwrite
    requires rec.offset == 0 && 0 in b.beside && b.beside[0] == Beside(id, Validating(rec, req))
    ensures GoesWrong(b, moves, sha)
  {
    var m := Plain(OpenNext(id, true));
    FirstStores(b.main, id, rec, ino, req, sha);
    var c := Go(b, m, sha);
    FirstLists(c.main, id, rec, ino, req, sha);
    var rest := AfterList(Go(c, m, sha), id, rec, ino, req, |c.main.handles|, sha);
    Then(c, m, Go(c, m, sha), rest, sha);
    Then(b, m, c, [m] + rest, sha);
    moves := [m] + ([m] + rest);
  }

  lemma AfterLooks(b: Many, id: Id, rec: Record, ino: Ino, req: OpenRequest, sha: Sha) returns (moves: seq<Move>)
    requires BothLooked(b, id, rec, ino, req)
    ensures GoesWrong(b, moves, sha)
  {
    var m := Plain(OpenNext(id, true));
    FirstCuts(b.main, id, rec, ino, req, sha);
    var rest := AfterCut(Go(b, m, sha), id, rec, ino, req, sha);
    Then(b, m, Go(b, m, sha), rest, sha);
    moves := [m] + rest;
  }

  /** A move of the second open that changes its own stage alone. */
  lemma OnlyBeside(b: Many, m: Move, opening: Opening, sha: Sha)
    requires Ready(b, m) && m.ticket == 0
    requires Step(Turned(b, 0), BesideEvent(b, m), sha) == Turned(b, 0).(opens := map[BesideId(b, m) := opening])
    ensures Go(b, m, sha) == Many(b.main, b.beside[0 := Beside(BesideId(b, m), opening)])
  {
  }

  lemma BothLook(b: Many, id: Id, rec: Record, ino: Ino, req: OpenRequest, sha: Sha) returns (moves: seq<Move>)
    requires Dormant(b.main, id, rec, ino) && req.target == rec.path && req.size == rec.size
    requires id in b.main.opens && b.main.opens[id] == Looking(req) && 0 in b.beside
    requires b.beside[0] == Beside(id, Looking(req))
    ensures GoesWrong(b, moves, sha)
  {
    var m1, m2 := Plain(OpenNext(id, true)), NextBeside(0, true);
    Looks(b.main, id, rec, ino, req, sha);
    var c := Many(b.main.(opens := b.main.opens[id := Validating(rec, req)]), b.beside);
    Looks(Turned(c, 0), id, rec, ino, req, sha);
    var d := Many(c.main, c.beside[0 := Beside(id, Validating(rec, req))]);
    assert map[id := Looking(req)][id := Validating(rec, req)] == map[id := Validating(rec, req)];
    OnlyBeside(c, m2, Validating(rec, req), sha);
    var rest := AfterLooks(d, id, rec, ino, req, sha);
    Then(c, m2, d, rest, sha);
    Then(b, m1, c, [m2] + rest, sha);
    moves := [m1] + ([m2] + rest);
  }

  lemma BothBegin(b: Many, id: Id, rec: Record, ino: Ino, req: OpenRequest, sha: Sha) returns (moves: seq<Move>)
    requires Dormant(b.main, id, rec, ino) && req.target == rec.path
    requires req.size == rec.size && id !in b.main.opens && 0 !in b.beside
    ensures GoesWrong(b, moves, sha)
  {
    var m1, m2 := Plain(Resume(id, req)), ResumeBeside(0, id, req);
    Begins(b.main, id, rec, ino, req, sha);
    var c := Many(b.main.(opens := b.main.opens[id := Looking(req)]), b.beside);
    Begins(Turned(c, 0), id, rec, ino, req, sha);
    var d := Many(c.main, c.beside[0 := Beside(id, Looking(req))]);
    OnlyBeside(c, m2, Looking(req), sha);
    var rest := BothLook(d, id, rec, ino, req, sha);
    Then(c, m2, d, rest, sha);
    Then(b, m1, c, [m2] + rest, sha);
    moves := [m1] + ([m2] + rest);
  }

  // ---- The condition ------------------------------------------------------------------------

  /** An upload of one byte, opened and closed at once. */
  lemma ClosedWaits(req: OpenRequest, sha: Sha)
    requires FreshUpload(INITIAL, req) && !IsTempName(req.target) && req.size == 1 && req.overwrite
    ensures var s := Run(OpenThenClose(req), sha);
            && req.newId in s.store && req.newId !in s.opens
            && Dormant(s, req.newId, s.store[req.newId], req.newIno) && s.store[req.newId].path == req.target
  {
    ClosedFits(req, sha);
    var o := Opened(INITIAL, req);
    OpenedIsInUse(req, sha);
    RunConcat(INITIAL, OpenScript(req), CloseScript(0, req.now), sha);
    CloseRuns(o, 0, req.now, sha);
    RecordNamesFile(Run(OpenScript(req) + CloseScript(0, req.now), sha), req.newId, sha);
    FileIsThere(Run(OpenScript(req) + CloseScript(0, req.now), sha), req.newId, sha);
  }

  lemma FileIsThere(s: State, id: Id, sha: Sha)
    requires Inv(s, sha) && id in s.hist.made && s.hist.made[id].temp in s.names
    ensures s.names[s.hist.made[id].temp] in s.inodes
  {
    assert UploadOk(s, id, sha);
  }

  function OpenThenClose(req: OpenRequest): seq<Event> {
    OpenScript(req) + CloseScript(0, req.now)
  }

  lemma StartIsPolite(req: OpenRequest)
    requires !IsTempName(req.target)
    ensures PoliteMoves(Moves(OpenThenClose(req)))
    ensures forall i :: 0 <= i < |OpenThenClose(req)| ==> !OpenThenClose(req)[i].Crash?
  {
  }

  lemma OverlapRun(req: OpenRequest, sha: Sha) returns (moves: seq<Move>)
    requires FreshUpload(INITIAL, req) && !IsTempName(req.target) && req.size == 1 && req.overwrite
    ensures PoliteMoves(moves) && !PublishesExact(GoAll(START, moves, sha).main, sha)
  {
    ClosedWaits(req, sha);
    StartIsPolite(req);
    PlainKeepsBeside(START, OpenThenClose(req), sha);
    var b := Many(Run(OpenThenClose(req), sha), map[]);
    var rest := BothBegin(b, req.newId, b.main.store[req.newId], req.newIno, req, sha);
    GoConcat(START, Moves(OpenThenClose(req)), rest, sha);
    moves := Moves(OpenThenClose(req)) + rest;
  }

  /** A run with one overlap in which a publication is not what the client declared. */
  lemma OverlapBreaksPublish(sha: Sha) returns (moves: seq<Move>)
    ensures PoliteMoves(moves) && !PublishesExact(GoAll(START, moves, sha).main, sha)
  {
    TempNameForms("");
    moves := OverlapRun(FreshOpen("u", Path("", "a"), 1, Path("", FIRST_TEMP), 1), sha);
  }

  /** No upload targets a temporary name, and unless `overlap`, opens of one upload come one after the other. */
  ghost predicate Allowed(moves: seq<Move>, overlap: bool, sha: Sha) {
    PoliteMoves(moves) && (overlap || Serial(moves, sha))
  }

  /** Publishes are exact in all allowed runs if and only if opens of one upload are not allowed to overlap. */
  lemma ExactIffOpensDoNotOverlap(overlap: bool, sha: Sha)
    ensures (forall moves :: Allowed(moves, overlap, sha) ==> PublishesExact(GoAll(START, moves, sha).main, sha))
              <==> !overlap
  {
    if overlap {
      var moves := OverlapBreaksPublish(sha);
      assert Allowed(moves, overlap, sha);
    } else {
      forall moves | Allowed(moves, overlap, sha) ensures PublishesExact(GoAll(START, moves, sha).main, sha) {
        SerialRunIsExact(moves, sha);
      }
    }
  }
}
