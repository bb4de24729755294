/** Why uploads must not target names of the temporary form: exactly then a publish can be wrong. */
module UploadTargets {
  import opened Prelude
  import Decimal
  import opened UploadState
  import opened UploadMachine
  import opened UploadScripts
  import opened UploadGuarantees

  const FIRST_TEMP := ".anytty-upload-1.part"
  const SECOND_TEMP := ".anytty-upload-2.part"

  lemma TempBases()
    ensures TempBase(1) == FIRST_TEMP && TempBase(2) == SECOND_TEMP && FIRST_TEMP != SECOND_TEMP
  {
    assert Decimal.Format(1) == "1" && Decimal.Format(2) == "2";
    assert FIRST_TEMP[15] == '1' && SECOND_TEMP[15] == '2';
  }

  lemma TempNameForms(dir: string)
    ensures IsTempName(Path(dir, FIRST_TEMP)) && IsTempName(Path(dir, SECOND_TEMP)) && FIRST_TEMP != SECOND_TEMP
    ensures !IsTempName(Path(dir, "a"))
  {
    TempBases();
    forall n: nat ensures TempBase(n) != "a" { assert |TempBase(n)| >= |TEMP_PREFIX|; }
  }

  /** Every create targets `t` or a name that is not of the temporary form. */
  ghost predicate PoliteBut(events: seq<Event>, t: Path) {
    forall e :: e in events && e.Create? ==> e.req.target == t || !IsTempName(e.req.target)
  }

  ghost predicate PublishesExact(s: State, sha: Sha) {
    forall p :: p in s.hist.published ==> |p.bytes| == p.size && sha(p.bytes) == p.digest
  }

  /**
   A target may be uploaded to, in any run with otherwise polite targets, with every publish exact,
   if and only if it is not a name of the temporary form.
   */
  lemma SafeTargetIffNotTempName(t: Path, sha: Sha)
    ensures (forall events :: PoliteBut(events, t) ==> PublishesExact(Run(events, sha), sha)) <==> !IsTempName(t)
  {
    if IsTempName(t) {
      var events := TempNamedTargetBreaksPublish(t, sha);
    } else {
      forall events | PoliteBut(events, t)
        ensures PublishesExact(Run(events, sha), sha)
      {
        PoliteRunIsExact(events, sha);
      }
    }
  }

  lemma PoliteRunIsExact(events: seq<Event>, sha: Sha)
    requires forall e :: e in events && e.Create? ==> !IsTempName(e.req.target)
    ensures PublishesExact(Run(events, sha), sha)
  {
    forall i | 0 <= i < |events| ensures Polite(events[i]) { assert events[i] in events; }
    forall i | 0 <= i < |Run(events, sha).hist.published|
      ensures var p := Run(events, sha).hist.published[i]; |p.bytes| == p.size && sha(p.bytes) == p.digest
    {
      EveryPublishIsExact(events, sha, i);
    }
  }

  /** A fresh open, for owner "o" at time 0. */
  function FreshOpen(id: Id, target: Path, size: nat, temp: Path, ino: Ino): OpenRequest {
    OpenRequest(target, size, true, NoResume, "o", 0, id, temp, ino)
  }

  /** The first upload: empty, of handle 0, its temporary name leading to `ino`. */
  predicate First(s: State, target: Path, temp1: Path, ino: Ino) {
    && |s.handles| == 2 && temp1 in s.names && s.names[temp1] == ino
    && var a := s.handles[0];
       && a.id == "a" && a.overwrite && a.path == target && a.temp == temp1 && a.file.Some? && a.hashed == []
       && a.offset == a.size == 0
       && a.work.Idle?
  }

  /** The second one: of handle 1, targeting the temporary file of the first, `bytes` written. */
  predicate Second(s: State, temp1: Path, temp2: Path, bytes: seq<byte>) {
    && |s.handles| == 2 && temp1 != temp2 && temp2 in s.names && s.names[temp2] == 2 && 2 in s.inodes
    && s.inodes[2] == bytes
    && var b := s.handles[1];
       && b.id == "b" && b.overwrite && b.path == temp1 && b.temp == temp2 && b.hashed == bytes && b.offset == |bytes|
       && b.size == 1
  }

  lemma BothOpened(target: Path, temp1: Path, temp2: Path)
    requires temp1 != temp2 && IsTempName(temp1) && IsTempName(temp2)
    ensures var a, b := FreshOpen("a", target, 0, temp1, 1), FreshOpen("b", temp1, 1, temp2, 2);
            && FreshUpload(INITIAL, a) && FreshUpload(Opened(INITIAL, a), b)
            && var s := Opened(Opened(INITIAL, a), b);
               && First(s, target, temp1, 1) && Second(s, temp1, temp2, []) && s.handles[1].file == Some(2)
               && s.handles[1].work.Idle?
  {
  }

  lemma OneByteWritten()
    ensures WriteAt([], 0, [0]) == [0] && [] + [0] == [0]
  {
  }

  lemma SecondFed(s: State, target: Path, temp1: Path, temp2: Path, sha: Sha)
    requires First(s, target, temp1, 1) && Second(s, temp1, temp2, []) && s.handles[1].file == Some(2)
    requires s.handles[1].work.Idle?
    ensures var t := Step(s, DataFrame(1, 0, [0], 0), sha);
            && First(t, target, temp1, 1) && Second(t, temp1, temp2, [0])
            && t.handles[1].file == Some(2) && (t.handles[1].work.Idle? || t.handles[1].work.Putting?)
  {
    OneByteWritten();
  }

  lemma SecondStored(s: State, target: Path, temp1: Path, temp2: Path, sha: Sha)
    requires First(s, target, temp1, 1) && Second(s, temp1, temp2, [0])
    requires s.handles[1].file == Some(2) && (s.handles[1].work.Idle? || s.handles[1].work.Putting?)
    ensures var t := Step(s, WorkNext(1, true), sha);
            && First(t, target, temp1, 1) && Second(t, temp1, temp2, [0]) && t.handles[1].file == Some(2)
            && t.handles[1].work.Idle?
  {
  }

  lemma SecondFinished(s: State, target: Path, temp1: Path, temp2: Path, sha: Sha)
    requires First(s, target, temp1, 1) && Second(s, temp1, temp2, [0]) && s.handles[1].file == Some(2)
    requires s.handles[1].work.Idle?
    ensures var t := Step(s, FinishFrame(1, 1, sha([0])), sha);
            First(t, target, temp1, 1) && Second(t, temp1, temp2, [0]) && t.handles[1].work.Renaming?
  {
  }

  /** The second upload's rename replaces the file that the first one's rename then installs. */
  lemma SecondRenamed(s: State, target: Path, temp1: Path, temp2: Path, sha: Sha)
    requires First(s, target, temp1, 1) && Second(s, temp1, temp2, [0]) && s.handles[1].work.Renaming?
    ensures var t := Step(s, WorkNext(1, true), sha); First(t, target, temp1, 2) && 2 in t.inodes && t.inodes[2] == [0]
  {
  }

  lemma FirstFinished(s: State, target: Path, temp1: Path, sha: Sha)
    requires First(s, target, temp1, 2) && 2 in s.inodes && s.inodes[2] == [0]
    ensures var t := Step(s, FinishFrame(0, 0, sha([])), sha);
            && |t.handles| == 2 && t.names == s.names && t.inodes == s.inodes
            && t.handles[0].id == "a" && t.handles[0].path == target && t.handles[0].temp == temp1
            && t.handles[0].size == 0
            && t.handles[0].work == Renaming(sha([]))
  {
  }

  lemma FirstRenamed(s: State, target: Path, temp1: Path, sha: Sha)
    requires |s.handles| == 2 && temp1 in s.names && s.names[temp1] == 2 && 2 in s.inodes && s.inodes[2] == [0]
    requires s.handles[0].id == "a" && s.handles[0].path == target && s.handles[0].temp == temp1
    requires s.handles[0].size == 0
    requires s.handles[0].work == Renaming(sha([]))
    ensures Publication(0, "a", target, [0], 0, sha([])) in Step(s, WorkNext(0, true), sha).hist.published
  {
  }

  ghost predicate Publishes(s: State, events: seq<Event>, target: Path, sha: Sha) {
    Publication(0, "a", target, [0], 0, sha([])) in RunFrom(s, events, sha).hist.published
  }

  /** `e` and then `rest`. */
  lemma Before(s: State, e: Event, t: State, rest: seq<Event>, target: Path, sha: Sha)
    requires t == Step(s, e, sha) && Publishes(t, rest, target, sha)
    ensures Publishes(s, [e] + rest, target, sha)
  {
    RunCons(s, e, rest, sha);
  }

  lemma FirstPublishes(s: State, target: Path, temp1: Path, sha: Sha)
    requires First(s, target, temp1, 2) && 2 in s.inodes && s.inodes[2] == [0]
    ensures Publishes(s, [FinishFrame(0, 0, sha([])), WorkNext(0, true)], target, sha)
  {
    RunOf2(s, FinishFrame(0, 0, sha([])), WorkNext(0, true), sha);
    FirstFinished(s, target, temp1, sha);
    FirstRenamed(Step(s, FinishFrame(0, 0, sha([])), sha), target, temp1, sha);
  }

  lemma AfterRename(s: State, target: Path, temp1: Path, temp2: Path, sha: Sha) returns (events: seq<Event>)
    requires First(s, target, temp1, 1) && Second(s, temp1, temp2, [0]) && s.handles[1].work.Renaming?
    ensures Publishes(s, events, target, sha) && forall e :: e in events ==> !e.Create?
  {
    var t := Step(s, WorkNext(1, true), sha);
    SecondRenamed(s, target, temp1, temp2, sha);
    FirstPublishes(t, target, temp1, sha);
    events := [WorkNext(1, true)] + [FinishFrame(0, 0, sha([])), WorkNext(0, true)];
    Before(s, WorkNext(1, true), t, [FinishFrame(0, 0, sha([])), WorkNext(0, true)], target, sha);
  }

  lemma AfterStore(s: State, target: Path, temp1: Path, temp2: Path, sha: Sha) returns (events: seq<Event>)
    requires First(s, target, temp1, 1) && Second(s, temp1, temp2, [0]) && s.handles[1].file == Some(2)
    requires s.handles[1].work.Idle?
    ensures Publishes(s, events, target, sha) && forall e :: e in events ==> !e.Create?
  {
    var e := FinishFrame(1, 1, sha([0]));
    SecondFinished(s, target, temp1, temp2, sha);
    var rest := AfterRename(Step(s, e, sha), target, temp1, temp2, sha);
    events := [e] + rest;
    Before(s, e, Step(s, e, sha), rest, target, sha);
  }

  lemma AfterFeed(s: State, target: Path, temp1: Path, temp2: Path, sha: Sha) returns (events: seq<Event>)
    requires First(s, target, temp1, 1) && Second(s, temp1, temp2, [0])
    requires s.handles[1].file == Some(2) && (s.handles[1].work.Idle? || s.handles[1].work.Putting?)
    ensures Publishes(s, events, target, sha) && forall e :: e in events ==> !e.Create?
  {
    var e := WorkNext(1, true);
    SecondStored(s, target, temp1, temp2, sha);
    var rest := AfterStore(Step(s, e, sha), target, temp1, temp2, sha);
    events := [e] + rest;
    Before(s, e, Step(s, e, sha), rest, target, sha);
  }

  lemma AfterOpens(s: State, target: Path, temp1: Path, temp2: Path, sha: Sha) returns (events: seq<Event>)
    requires First(s, target, temp1, 1) && Second(s, temp1, temp2, []) && s.handles[1].file == Some(2)
    requires s.handles[1].work.Idle?
    ensures Publishes(s, events, target, sha) && forall e :: e in events ==> !e.Create?
  {
    var e := DataFrame(1, 0, [0], 0);
    SecondFed(s, target, temp1, temp2, sha);
    var rest := AfterFeed(Step(s, e, sha), target, temp1, temp2, sha);
    events := [e] + rest;
    Before(s, e, Step(s, e, sha), rest, target, sha);
  }

  lemma OpenBoth(target: Path, temp1: Path, temp2: Path, sha: Sha) returns (events: seq<Event>, s: State)
    requires temp1 != temp2 && IsTempName(temp1) && IsTempName(temp2)
    ensures s == Run(events, sha) && First(s, target, temp1, 1) && Second(s, temp1, temp2, [])
    ensures s.handles[1].file == Some(2) && s.handles[1].work.Idle?
    ensures forall e :: e in events && e.Create? ==> e.req.target == target || e.req.target == temp1
  {
    var a, b := FreshOpen("a", target, 0, temp1, 1), FreshOpen("b", temp1, 1, temp2, 2);
    BothOpened(target, temp1, temp2);
    s := Opened(Opened(INITIAL, a), b);
    CreateOpens(INITIAL, a, sha);
    CreateOpens(Opened(INITIAL, a), b, sha);
    RunConcat(INITIAL, OpenScript(a), OpenScript(b), sha);
    events := OpenScript(a) + OpenScript(b);
  }

  /**
   A run in which an upload targets the temporary name `t` of another one next to it: a publication
   installs one byte although the client declared the size and digest of the empty file.
   */
  lemma TempNamedTargetBreaksPublish(t: Path, sha: Sha) returns (events: seq<Event>)
    requires IsTempName(t)
    ensures PoliteBut(events, t)
    ensures Publication(0, "a", Path(t.dir, "a"), [0], 0, sha([])) in Run(events, sha).hist.published
  {
    TempNameForms(t.dir);
    var temp2 := Path(t.dir, if t.base == FIRST_TEMP then SECOND_TEMP else FIRST_TEMP);
    var opening, s := OpenBoth(Path(t.dir, "a"), t, temp2, sha);
    var rest := AfterOpens(s, Path(t.dir, "a"), t, temp2, sha);
    RunConcat(INITIAL, opening, rest, sha);
    events := opening + rest;
  }
}
