/**
 Opens of one upload that overlap, which the machine of UploadMachine leaves out. Here any number of opens
 can be in progress beside the machine's own; runs in which they still come one after the other are runs
 of the machine.
 */
module UploadSerial {
  import opened Prelude
  import opened UploadState
  import opened UploadMachine
  import opened UploadInvariant
  import opened UploadRuns
  import opened UploadTargets

  /** An open in progress beside the machine. */
  datatype Beside = Beside(id: Id, opening: Opening)

  /** The machine, and more opens, each under a ticket of its own. */
  datatype Many = Many(main: State, beside: map<nat, Beside>)

  datatype Move =
    | Plain(e: Event)
    | ResumeBeside(ticket: nat, id: Id, req: OpenRequest)
    | NextBeside(ticket: nat, ok: bool)
    | FailsBeside(ticket: nat)

  /** The machine as the open with this ticket sees it. */
  function Turned(b: Many, ticket: nat): State {
    b.main.(opens := if ticket in b.beside then map[b.beside[ticket].id := b.beside[ticket].opening] else map[])
  }

  function Back(b: Many, ticket: nat, id: Id, t: State): Many {
    Many(t.(opens := b.main.opens),
         if id in t.opens then b.beside[ticket := Beside(id, t.opens[id])] else b.beside - {ticket})
  }

  /** A move beside is possible if it begins with a new ticket or goes on with an old one. */
  predicate Ready(b: Many, m: Move) {
    !m.Plain? && (m.ResumeBeside? <==> m.ticket !in b.beside)
  }

  function BesideId(b: Many, m: Move): Id
    requires Ready(b, m)
  {
    if m.ResumeBeside? then m.id else b.beside[m.ticket].id
  }

  function BesideEvent(b: Many, m: Move): Event
    requires Ready(b, m)
  {
    if m.ResumeBeside? then Resume(m.id, m.req)
    else if m.NextBeside? then OpenNext(b.beside[m.ticket].id, m.ok)
    else OpenFails(b.beside[m.ticket].id)
  }

  ghost function Go(b: Many, m: Move, sha: Sha): Many {
    if m.Plain? then Many(Step(b.main, m.e, sha), if m.e.Crash? then map[] else b.beside)
    else if Ready(b, m) then Back(b, m.ticket, BesideId(b, m), Step(Turned(b, m.ticket), BesideEvent(b, m), sha))
    else b
  }

  ghost function GoAll(b: Many, moves: seq<Move>, sha: Sha): Many {
    if moves == [] then b else Go(GoAll(b, moves[..|moves| - 1], sha), moves[|moves| - 1], sha)
  }

  const START := Many(INITIAL, map[])

  predicate PoliteMoves(moves: seq<Move>) {
    forall i :: 0 <= i < |moves| && moves[i].Plain? ==> Polite(moves[i].e)
  }

  predicate HeldBeside(b: Many, id: Id) {
    exists t :: t in b.beside && b.beside[t].id == id
  }

  /** The move does not begin an open of an upload that has another one in progress. */
  predicate BeginsAlone(b: Many, m: Move) {
    && (m.Plain? && m.e.Resume? ==> !HeldBeside(b, m.e.id))
    && (m.ResumeBeside? ==> m.id !in b.main.opens && !HeldBeside(b, m.id))
  }

  /** Opens of one upload come one after the other. */
  ghost predicate Serial(moves: seq<Move>, sha: Sha) {
    forall i :: 0 <= i < |moves| ==> BeginsAlone(GoAll(START, moves[..i], sha), moves[i])
  }

  // ---- The machine that holds all opens in its own table ------------------------------------

  ghost predicate Holds(b: Many, s: State, t: nat)
    requires t in b.beside
  {
    var id := b.beside[t].id;
    && id in s.opens && s.opens[id] == b.beside[t].opening && id !in b.main.opens
    && forall u :: u in b.beside && u != t ==> b.beside[u].id != id
  }

  ghost predicate Merged(b: Many, s: State) {
    && s == b.main.(opens := s.opens)
    && (forall id :: id in b.main.opens ==> id in s.opens && s.opens[id] == b.main.opens[id])
    && (forall t :: t in b.beside ==> Holds(b, s, t))
    && (forall id :: id in s.opens ==> id in b.main.opens || HeldBeside(b, id))
  }

  predicate OfOpen(e: Event) {
    e.Resume? || e.OpenNext? || e.OpenFails?
  }

  /** An event reads and writes the open of its own upload at most. */
  lemma SameChange(s: State, m: State, e: Event, sha: Sha)
    requires s == m.(opens := s.opens) && Ordinary(e) && (OfOpen(e) ==> SameAt(s.opens, m.opens, e.id))
    ensures Possible(s, e) <==> Possible(m, e)
    ensures Possible(s, e) ==> Subject(s, e) == Subject(m, e) && ChangeOf(s, e, sha) == ChangeOf(m, e, sha)
    ensures Possible(s, e) && !OfOpen(e) ==> ChangeOf(s, e, sha).slot.Same?
  {
  }

  lemma SameEffect(s: State, m: State, id: Id, c: Change)
    requires s == m.(opens := s.opens)
    ensures Apply(s, id, c) == Apply(m, id, c).(opens := NewOpens(s, id, c))
  {
  }

  function Slotted(opens: map<Id, Opening>, id: Id, slot: Slot): map<Id, Opening> {
    match slot
    case Same => opens
    case Vacant => opens - {id}
    case Filled(opening) => opens[id := opening]
  }

  lemma OrdinaryAlike(s: State, m: State, e: Event, sha: Sha) returns (slot: Slot)
    requires s == m.(opens := s.opens) && Ordinary(e) && (OfOpen(e) ==> SameAt(s.opens, m.opens, e.id))
    ensures Step(s, e, sha) == Step(m, e, sha).(opens := Step(s, e, sha).opens)
    ensures !OfOpen(e) ==> slot.Same?
    ensures var id := if OfOpen(e) then e.id else "";
            && Step(s, e, sha).opens == Slotted(s.opens, id, slot)
            && Step(m, e, sha).opens == Slotted(m.opens, id, slot)
  {
    SameChange(s, m, e, sha);
    slot := Same;
    if Possible(s, e) {
      slot := ChangeOf(s, e, sha).slot;
      SameEffect(s, m, Subject(s, e), ChangeOf(s, e, sha));
    }
  }

  lemma MergedPlain(b: Many, s: State, id: Id, slot: Slot, t: State)
    requires Merged(b, s) && (slot.Same? || !HeldBeside(b, id)) && t.opens == Slotted(b.main.opens, id, slot)
    ensures Merged(Many(t, b.beside), t.(opens := Slotted(s.opens, id, slot)))
  {
    var c, u := Many(t, b.beside), t.(opens := Slotted(s.opens, id, slot));
    forall k | k in c.beside ensures Holds(c, u, k) { assert Holds(b, s, k); }
    forall j | j in u.opens && j !in t.opens ensures HeldBeside(c, j) {
      assert HeldBeside(b, j);
      var k :| k in b.beside && b.beside[k].id == j;
      assert k in c.beside;
    }
  }

  lemma MergedBeside(b: Many, s: State, ticket: nat, id: Id, slot: Slot, t: State)
    requires Merged(b, s) && id !in b.main.opens
    requires if ticket in b.beside then b.beside[ticket].id == id else !HeldBeside(b, id)
    requires t.opens == Slotted(Turned(b, ticket).opens, id, slot)
    ensures Merged(Back(b, ticket, id, t), t.(opens := Slotted(s.opens, id, slot)))
  {
    var c, u := Back(b, ticket, id, t), t.(opens := Slotted(s.opens, id, slot));
    if ticket in b.beside { assert Holds(b, s, ticket); }
    forall k | k in c.beside ensures Holds(c, u, k) {
      if k in b.beside { assert Holds(b, s, k); }
    }
    forall j | j in u.opens && j !in c.main.opens ensures HeldBeside(c, j) {
      if j == id {
        assert ticket in c.beside;
      } else {
        assert HeldBeside(b, j);
        var k :| k in b.beside && b.beside[k].id == j;
        assert k in c.beside;
      }
    }
  }

  // ---- Each move is a step of that machine, or none -----------------------------------------

  lemma PlainOpen(b: Many, s: State, e: Event, sha: Sha)
    requires Merged(b, s) && OfOpen(e) && !HeldBeside(b, e.id)
    ensures Merged(Many(Step(b.main, e, sha), b.beside), Step(s, e, sha))
  {
    var slot := OrdinaryAlike(s, b.main, e, sha);
    MergedPlain(b, s, e.id, slot, Step(b.main, e, sha));
  }

  lemma PlainOther(b: Many, s: State, e: Event, sha: Sha)
    requires Merged(b, s) && Ordinary(e) && !OfOpen(e)
    ensures Merged(Many(Step(b.main, e, sha), b.beside), Step(s, e, sha))
  {
    var slot := OrdinaryAlike(s, b.main, e, sha);
    MergedPlain(b, s, "", slot, Step(b.main, e, sha));
  }

  lemma PlainCreate(b: Many, s: State, e: Event, sha: Sha)
    requires Merged(b, s) && e.Create? && s.opens.Keys <= s.hist.made.Keys
    ensures Merged(Many(Step(b.main, e, sha), b.beside), Step(s, e, sha))
  {
    assert FreshUpload(s, e.req) <==> FreshUpload(b.main, e.req);
    if FreshUpload(s, e.req) {
      var id, slot := e.req.newId, Filled(Prepared(NewRecord(e.req), e.req.newIno, [], e.req));
      assert !HeldBeside(b, id) by {
        forall t | t in b.beside ensures b.beside[t].id != id { assert Holds(b, s, t); }
      }
      MergedPlain(b, s, id, slot, Step(b.main, e, sha));
    }
  }

  lemma PlainCrash(b: Many, s: State, sha: Sha)
    requires Merged(b, s)
    ensures Merged(Many(Step(b.main, Crash, sha), map[]), Step(s, Crash, sha))
  {
    RebootForgetsOpens(b.main, s.opens);
  }

  lemma RebootForgetsOpens(s: State, opens: map<Id, Opening>)
    ensures Reboot(s.(opens := opens)) == Reboot(s)
  {
  }

  lemma ForeignKeepsOpens(s: State, opens: map<Id, Opening>, path: Path, content: Option<seq<byte>>, ino: Ino)
    ensures Disturbed(s.(opens := opens), path, content, ino) == Disturbed(s, path, content, ino).(opens := opens)
    ensures Disturbed(s, path, content, ino).opens == s.opens
  {
  }

  lemma PlainForeign(b: Many, s: State, e: Event, sha: Sha)
    requires Merged(b, s) && e.Foreign?
    ensures Merged(Many(Step(b.main, e, sha), b.beside), Step(s, e, sha))
  {
    ForeignKeepsOpens(b.main, s.opens, e.path, e.content, e.ino);
    MergedPlain(b, s, "", Same, Step(b.main, e, sha));
  }

  /** An open that only a ticket holds is not one the machine can move on. */
  lemma PlainStutters(b: Many, e: Event, sha: Sha)
    requires (e.OpenNext? || e.OpenFails?) && e.id !in b.main.opens
    ensures Step(b.main, e, sha) == b.main
  {
  }

  lemma PlainSimulates(b: Many, s: State, e: Event, sha: Sha) returns (events: seq<Event>)
    requires Merged(b, s) && s.opens.Keys <= s.hist.made.Keys && Polite(e) && BeginsAlone(b, Plain(e))
    ensures AllPolite(events) && Merged(Go(b, Plain(e), sha), RunFrom(s, events, sha))
  {
    if OfOpen(e) && HeldBeside(b, e.id) {
      var t :| t in b.beside && b.beside[t].id == e.id;
      assert Holds(b, s, t);
      PlainStutters(b, e, sha);
      events := [];
    } else {
      if OfOpen(e) {
        PlainOpen(b, s, e, sha);
      } else if e.Create? {
        PlainCreate(b, s, e, sha);
      } else if Ordinary(e) {
        PlainOther(b, s, e, sha);
      } else if e.Crash? {
        PlainCrash(b, s, sha);
      } else {
        PlainForeign(b, s, e, sha);
      }
      RunOf1(s, e, sha);
      events := [e];
    }
  }

  lemma BesideStep(b: Many, s: State, m: Move, sha: Sha)
    requires Merged(b, s) && Ready(b, m) && BeginsAlone(b, m)
    ensures Merged(Go(b, m, sha), Step(s, BesideEvent(b, m), sha))
  {
    var r, e, id := Turned(b, m.ticket), BesideEvent(b, m), BesideId(b, m);
    if m.ticket in b.beside { assert Holds(b, s, m.ticket); }
    assert m.ResumeBeside? && id in s.opens ==> HeldBeside(b, id);
    var slot := OrdinaryAlike(s, r, e, sha);
    MergedBeside(b, s, m.ticket, id, slot, Step(r, e, sha));
  }

  lemma Simulates(b: Many, s: State, m: Move, sha: Sha) returns (events: seq<Event>)
    requires Merged(b, s) && s.opens.Keys <= s.hist.made.Keys && BeginsAlone(b, m) && (m.Plain? ==> Polite(m.e))
    ensures AllPolite(events) && Merged(Go(b, m, sha), RunFrom(s, events, sha))
  {
    if m.Plain? {
      events := PlainSimulates(b, s, m.e, sha);
    } else if Ready(b, m) {
      BesideStep(b, s, m, sha);
      RunOf1(s, BesideEvent(b, m), sha);
      events := [BesideEvent(b, m)];
    } else {
      events := [];
    }
  }

  /** A serial run is a run of the machine that holds all opens in its own table. */
  lemma {:induction false} SerialIsMachine(moves: seq<Move>, sha: Sha) returns (events: seq<Event>)
    requires PoliteMoves(moves) && Serial(moves, sha)
    ensures AllPolite(events) && Merged(GoAll(START, moves, sha), Run(events, sha))
  {
    if moves == [] {
      events := [];
    } else {
      var front := moves[..|moves| - 1];
      forall i | 0 <= i < |front| ensures BeginsAlone(GoAll(START, front[..i], sha), front[i]) {
        assert front[..i] == moves[..i];
      }
      var before := SerialIsMachine(front, sha);
      OpensAreMade(before, sha);
      var last := Simulates(GoAll(START, front, sha), Run(before, sha), moves[|moves| - 1], sha);
      RunConcat(INITIAL, before, last, sha);
      events := before + last;
    }
  }

  lemma OpensAreMade(events: seq<Event>, sha: Sha)
    requires AllPolite(events)
    ensures var s := Run(events, sha); s.opens.Keys <= s.hist.made.Keys
  {
    RunInv(events, sha);
  }

  /** Publishes are exact in every run in which opens of one upload come one after the other. */
  lemma SerialRunIsExact(moves: seq<Move>, sha: Sha)
    requires PoliteMoves(moves) && Serial(moves, sha)
    ensures PublishesExact(GoAll(START, moves, sha).main, sha)
  {
    var events := SerialIsMachine(moves, sha);
    forall e | e in events && e.Create? ensures !IsTempName(e.req.target) {
      var i :| 0 <= i < |events| && events[i] == e;
      assert Polite(events[i]);
    }
    PoliteRunIsExact(events, sha);
  }
}
