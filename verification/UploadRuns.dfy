/** The invariant holds in every run, and events leave the uploads that they are not about alone. */
module UploadRuns {
  import opened Prelude
  import opened UploadState
  import opened UploadMachine
  import opened UploadInvariant
  import opened UploadSteps

  // ---- New uploads --------------------------------------------------------------------------

  lemma CreatedUpload(s: State, req: OpenRequest, sha: Sha)
    requires Known(s) && FreshUpload(s, req) && !IsTempName(req.target)
    ensures UploadOk(Created(s, req), req.newId, sha)
  {
  }

  lemma UntouchedByCreate(s: State, req: OpenRequest, j: Id)
    requires FreshUpload(s, req) && j in s.hist.made && FileOk(s, s.hist.made[j])
    ensures Untouched(s, Created(s, req), j)
  {
  }

  lemma CreateApart(s: State, req: OpenRequest)
    requires Apart(s) && FreshUpload(s, req)
    requires forall j :: j in s.hist.made ==> s.hist.made[j].ino != req.newIno
    ensures Apart(Created(s, req))
  {
    var t := Created(s, req);
    forall i, j | i in t.hist.made && j in t.hist.made && Overlap(t.hist.made[i], t.hist.made[j]) ensures i == j {
      if i in s.hist.made && j in s.hist.made { assert Overlap(s.hist.made[i], s.hist.made[j]); }
    }
  }

  lemma CreateRemovals(s: State, req: OpenRequest)
    requires RemovalsOk(s) && FreshUpload(s, req)
    ensures RemovalsOk(Created(s, req))
  {
    var t := Created(s, req);
    forall i | 0 <= i < |t.removals| ensures RemovalOk(t, t.removals[i]) { assert RemovalOk(s, s.removals[i]); }
  }

  lemma CreateInv(s: State, req: OpenRequest, sha: Sha)
    requires Inv(s, sha) && FreshUpload(s, req) && !IsTempName(req.target)
    ensures Inv(Created(s, req), sha)
    ensures forall j :: j in s.hist.made ==> Untouched(s, Created(s, req), j)
  {
    var t := Created(s, req);
    forall j | j in s.hist.made ensures s.hist.made[j].ino != req.newIno { assert UploadOk(s, j, sha); }
    CreateApart(s, req);
    CreateRemovals(s, req);
    CreatedUpload(s, req, sha);
    forall j | j in s.hist.made ensures Untouched(s, t, j) && UploadOk(t, j, sha) {
      assert UploadOk(s, j, sha);
      UntouchedByCreate(s, req, j);
      UntouchedOk(s, t, j, sha);
    }
  }

  // ---- Crashes ------------------------------------------------------------------------------

  lemma RebootUpload(s: State, id: Id, sha: Sha)
    requires id in s.hist.made && UploadOk(s, id, sha)
    ensures UploadOk(Reboot(s), id, sha)
  {
    var t, m := Reboot(s), s.hist.made[id];
    forall g | 0 <= g < |t.handles| && t.handles[g].id == id
      ensures HandleOk(t.handles[g], t.hist.made[id], Listed(t, g), m.temp in t.names, sha)
    {
      assert HandleOk(s.handles[g], m, Listed(s, g), m.temp in s.names, sha);
    }
  }

  lemma RebootInv(s: State, sha: Sha)
    requires Inv(s, sha)
    ensures Inv(Reboot(s), sha)
  {
    var t := Reboot(s);
    forall i, j | i in t.hist.made && j in t.hist.made && Overlap(t.hist.made[i], t.hist.made[j]) ensures i == j {
      assert Overlap(s.hist.made[i], s.hist.made[j]);
    }
    forall j | j in t.hist.made ensures UploadOk(t, j, sha) { RebootUpload(s, j, sha); }
  }

  // ---- Foreign changes ----------------------------------------------------------------------

  lemma UntouchedByForeign(s: State, path: Path, content: Option<seq<byte>>, ino: Ino, j: Id)
    requires j in s.hist.made && FileOk(s, s.hist.made[j])
    ensures Untouched(s, Disturbed(s, path, content, ino), j)
  {
  }

  lemma ForeignNames(s: State, path: Path, content: Option<seq<byte>>, ino: Ino)
    requires forall p :: p in s.names ==> s.names[p] in s.inodes
    ensures var t := Disturbed(s, path, content, ino);
            && (forall p :: p in t.names ==> t.names[p] in t.inodes)
            && (forall p :: IsTempName(p) && p in t.names ==> p in s.names)
            && t == s.(names := t.names, inodes := t.inodes)
  {
  }

  lemma ForeignRemovals(s: State, t: State)
    requires RemovalsOk(s) && t == s.(names := t.names, inodes := t.inodes)
    requires forall p :: IsTempName(p) && p in t.names ==> p in s.names
    requires forall j :: j in s.hist.made ==> IsTempName(s.hist.made[j].temp)
    ensures RemovalsOk(t)
  {
    forall i | 0 <= i < |t.removals| ensures RemovalOk(t, t.removals[i]) { assert RemovalOk(s, s.removals[i]); }
  }

  lemma ForeignInv(s: State, path: Path, content: Option<seq<byte>>, ino: Ino, sha: Sha)
    requires Inv(s, sha)
    ensures Inv(Disturbed(s, path, content, ino), sha)
    ensures forall j :: j in s.hist.made ==> Untouched(s, Disturbed(s, path, content, ino), j)
  {
    var t := Disturbed(s, path, content, ino);
    TempNames(s, sha);
    ForeignNames(s, path, content, ino);
    ForeignRemovals(s, t);
    forall j | j in s.hist.made ensures Untouched(s, t, j) && UploadOk(t, j, sha) {
      assert UploadOk(s, j, sha);
      UntouchedByForeign(s, path, content, ino, j);
      UntouchedOk(s, t, j, sha);
    }
  }

  // ---- Every step, every run ----------------------------------------------------------------

  lemma ResumeInv(s: State, id: Id, req: OpenRequest, sha: Sha)
    requires Inv(s, sha) && MayResume(s, id, req)
    ensures var t := Apply(s, id, ChangeOf(s, Resume(id, req), sha)); Inv(t, sha) && Others(s, t, id)
  {
    assert UploadOk(s, id, sha);
    ResumeSound(s, id, req, ChangeOf(s, Resume(id, req), sha), sha);
    ApplyInv(s, id, ChangeOf(s, Resume(id, req), sha), sha);
  }

  lemma RefusedInv(s: State, id: Id, sha: Sha)
    requires Inv(s, sha)
    ensures Inv(Apply(s, id, NOTHING), sha) && Others(s, Apply(s, id, NOTHING), id)
  {
    RemovalAlone(s, id, NOTHING, sha);
    RemovalOthers(s, id, NOTHING);
  }

  lemma FailInv(s: State, id: Id, sha: Sha)
    requires Inv(s, sha) && id in s.opens
    ensures var t := Apply(s, id, NOTHING.(slot := Vacant)); Inv(t, sha) && Others(s, t, id)
  {
    OpenGoodInv(s, id, NOTHING.(slot := Vacant), sha);
  }

  lemma OpenEventInv(s: State, e: Event, sha: Sha)
    requires Inv(s, sha) && (e.Resume? || e.OpenFails?) && Possible(s, e)
    ensures var t := Apply(s, e.id, ChangeOf(s, e, sha)); Inv(t, sha) && Others(s, t, e.id)
  {
    if e.OpenFails? {
      FailInv(s, e.id, sha);
    } else if MayResume(s, e.id, e.req) {
      ResumeInv(s, e.id, e.req, sha);
    } else {
      RefusedInv(s, e.id, sha);
    }
  }

  lemma OrdinaryInv(s: State, e: Event, sha: Sha)
    requires Inv(s, sha) && Ordinary(e) && Possible(s, e)
    ensures var t := Apply(s, Subject(s, e), ChangeOf(s, e, sha)); Inv(t, sha) && Others(s, t, Subject(s, e))
  {
    if OfHandle(e) {
      HandleEventInv(s, e, sha);
    } else {
      match e
      case OpenNext(id, ok) => AdvanceInv(s, id, ok, sha);
      case RemovalNext(i, ok) => RemoveInv(s, i, ok, sha);
      case Resume(_, _) => OpenEventInv(s, e, sha);
      case OpenFails(_) => OpenEventInv(s, e, sha);
      case _ => BeginInv(s, e, sha);
    }
  }

  lemma StepInv(s: State, e: Event, sha: Sha)
    requires Inv(s, sha) && Polite(e)
    ensures Inv(Step(s, e, sha), sha)
  {
    match e
    case Create(req) => if FreshUpload(s, req) { CreateInv(s, req, sha); }
    case Crash => RebootInv(s, sha);
    case Foreign(path, content, ino) => ForeignInv(s, path, content, ino, sha);
    case _ => if Possible(s, e) { OrdinaryInv(s, e, sha); }
  }

  lemma {:induction false} RunFromInv(s: State, events: seq<Event>, sha: Sha)
    requires Inv(s, sha) && AllPolite(events)
    ensures Inv(RunFrom(s, events, sha), sha)
  {
    if events != [] {
      RunFromInv(s, events[..|events| - 1], sha);
      StepInv(RunFrom(s, events[..|events| - 1], sha), events[|events| - 1], sha);
    }
  }

  /** The invariant holds in every reachable state. */
  lemma RunInv(events: seq<Event>, sha: Sha)
    requires AllPolite(events)
    ensures Inv(Run(events, sha), sha)
  {
    RunFromInv(INITIAL, events, sha);
  }

  // ---- Other uploads ------------------------------------------------------------------------

  /** The events that act on upload `id`. */
  predicate Touches(s: State, e: Event, id: Id) {
    e.Crash? || (Ordinary(e) && Possible(s, e) && Subject(s, e) == id)
  }

  /** Nothing about upload `id` has changed, removals included. */
  ghost predicate Aloof(s: State, t: State, id: Id)
    requires id in s.hist.made
  {
    && Untouched(s, t, id) && |s.removals| <= |t.removals|
    && (forall i :: 0 <= i < |s.removals| ==>
         t.removals[i].id == s.removals[i].id && (s.removals[i].id == id ==> t.removals[i] == s.removals[i]))
    && (forall i :: |s.removals| <= i < |t.removals| ==> t.removals[i].id != id)
  }

  lemma OthersAloof(s: State, t: State, id: Id, j: Id)
    requires Others(s, t, id) && j in s.hist.made && j != id
    ensures Aloof(s, t, j)
  {
  }

  lemma OrdinaryAloof(s: State, e: Event, id: Id, sha: Sha)
    requires Inv(s, sha) && Ordinary(e) && id in s.hist.made && (Possible(s, e) ==> Subject(s, e) != id)
    ensures Aloof(s, Step(s, e, sha), id)
  {
    if Possible(s, e) {
      OrdinaryInv(s, e, sha);
      OthersAloof(s, Step(s, e, sha), Subject(s, e), id);
    } else {
      AloofSelf(s, id);
    }
  }

  lemma AloofSelf(s: State, id: Id)
    requires id in s.hist.made
    ensures Aloof(s, s, id)
  {
  }

  lemma UntouchedAloof(s: State, t: State, id: Id)
    requires id in s.hist.made && Untouched(s, t, id) && t.removals == s.removals
    ensures Aloof(s, t, id)
  {
  }

  lemma CreateAloof(s: State, req: OpenRequest, id: Id, sha: Sha)
    requires Inv(s, sha) && Polite(Create(req)) && id in s.hist.made
    ensures Aloof(s, Step(s, Create(req), sha), id)
  {
    if FreshUpload(s, req) {
      CreateInv(s, req, sha);
      UntouchedAloof(s, Created(s, req), id);
    } else {
      AloofSelf(s, id);
    }
  }

  lemma ForeignAloof(s: State, e: Event, id: Id, sha: Sha)
    requires id in s.hist.made && FileOk(s, s.hist.made[id]) && e.Foreign?
    ensures Aloof(s, Step(s, e, sha), id)
  {
    UntouchedByForeign(s, e.path, e.content, e.ino, id);
    UntouchedAloof(s, Disturbed(s, e.path, e.content, e.ino), id);
  }

  lemma AloofStep(s: State, e: Event, id: Id, sha: Sha)
    requires Inv(s, sha) && Polite(e) && id in s.hist.made && !Touches(s, e, id)
    ensures Aloof(s, Step(s, e, sha), id)
  {
    if e.Create? {
      CreateAloof(s, e.req, id, sha);
    } else if e.Foreign? {
      assert UploadOk(s, id, sha);
      ForeignAloof(s, e, id, sha);
    } else {
      OrdinaryAloof(s, e, id, sha);
    }
  }

  lemma ApplyMade(s: State, id: Id, c: Change)
    ensures Apply(s, id, c).hist.made.Keys == s.hist.made.Keys
  {
  }

  lemma MadeStays(s: State, e: Event, sha: Sha)
    ensures s.hist.made.Keys <= Step(s, e, sha).hist.made.Keys
  {
    if Ordinary(e) && Possible(s, e) { ApplyMade(s, Subject(s, e), ChangeOf(s, e, sha)); }
  }
}
