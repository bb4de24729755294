/**
 Asynchronous start of an attachment's stream: startAttachmentStream, stopAttachmentStream and the
 tails of retireBinding and releaseAllStreams in access/server/session.go, over a provider that
 hands out one stream until it is closed (access/provider/pool/typed.go). A start is known by the
 generation it claimed. A close is decided under the lock and done some time after.
 */
module AttachmentStream {
  import opened Prelude

  type Stream = nat

  /** A start that has claimed its generation, before and after it has asked the provider. */
  datatype Pending = Asking | Waiting(stream: Stream)

  datatype Installed = Installed(began: nat, stream: Stream)

  /**
   `provided` is the provider's current stream and `streams` how many it has made; `closing` are the
   streams whose close has been decided and `closed` those that are closed; `installed` and `undone`
   record what has happened.
   */
  datatype Binding = Binding(
    generation: nat, duplex: Option<Installed>, starting: map<nat, Pending>,
    provided: Option<Stream>, streams: nat,
    closing: set<Stream>, closed: set<Stream>, installed: map<nat, Stream>, undone: seq<nat>)

  const INITIAL := Binding(0, None, map[], None, 0, {}, {}, map[], [])

  /** The decision of a start whose stream has become ready. */
  predicate MayInstall(generation: nat, duplex: Option<Installed>, began: nat) {
    generation == began && duplex.None?
  }

  datatype Event =
    | Start
    | StartUnattached
    | TakeStream(began: nat)
    | BecomesReady(began: nat)
    | FailsToStart(began: nat)
    | Stop
    | Retire
    | FinishClose(stream: Stream)

  /** The provider's stream, or a new one if there is none or it is closed. */
  function Provided(b: Binding): Stream {
    if b.provided.None? || b.provided.value in b.closed then b.streams else b.provided.value
  }

  function Halt(b: Binding): Binding {
    if b.duplex.None? then b.(generation := b.generation + 1)
    else b.(generation := b.generation + 1, duplex := None,
            undone := b.undone + [b.duplex.value.began], closing := b.closing + {b.duplex.value.stream})
  }

  function Step(b: Binding, e: Event): Binding {
    match e
    case Start => b.(generation := b.generation + 1, starting := b.starting[b.generation + 1 := Asking])
    case StartUnattached => b.(generation := b.generation + 1)
    case TakeStream(began) =>
      if began !in b.starting || b.starting[began].Waiting? then b
      else
        var stream := Provided(b);
        b.(starting := b.starting[began := Waiting(stream)], provided := Some(stream),
           streams := Max(b.streams, stream + 1))
    case BecomesReady(began) =>
      if began !in b.starting || b.starting[began].Asking? then b
      else
        var stream := b.starting[began].stream;
        if MayInstall(b.generation, b.duplex, began) then
          b.(duplex := Some(Installed(began, stream)), starting := b.starting - {began},
             installed := b.installed[began := stream])
        else b.(starting := b.starting - {began}, closing := b.closing + {stream})
    case FailsToStart(began) => b.(starting := b.starting - {began})
    case Stop => Halt(b)
    case Retire => Halt(b)
    case FinishClose(stream) => if stream in b.closing then b.(closed := b.closed + {stream}) else b
  }

  function RunFrom(b: Binding, events: seq<Event>): Binding {
    if events == [] then b else Step(RunFrom(b, events[..|events| - 1]), events[|events| - 1])
  }

  function Run(events: seq<Event>): Binding {
    RunFrom(INITIAL, events)
  }

  // ---- The invariant ------------------------------------------------------------------------

  ghost predicate Distinct(s: seq<nat>) {
    forall i, j :: 0 <= i < j < |s| ==> s[i] != s[j]
  }

  ghost predicate Inv(b: Binding) {
    && (forall began :: began in b.starting ==> began <= b.generation && began !in b.installed)
    && (forall began :: began in b.installed ==> began <= b.generation)
    && (forall began :: began in b.installed ==>
          (b.duplex == Some(Installed(began, b.installed[began])) <==> began !in b.undone))
    && (b.duplex.Some? ==>
          var d := b.duplex.value; d.began in b.installed && d.stream == b.installed[d.began])
    && Distinct(b.undone)
    && (forall began :: began in b.undone ==> began in b.installed && b.installed[began] in b.closing)
    && b.closed <= b.closing
  }

  lemma StepInv(b: Binding, e: Event)
    requires Inv(b)
    ensures Inv(Step(b, e))
  {
  }

  lemma {:induction false} RunInv(b: Binding, events: seq<Event>)
    requires Inv(b)
    ensures Inv(RunFrom(b, events))
  {
    if events != [] {
      RunInv(b, events[..|events| - 1]);
      StepInv(RunFrom(b, events[..|events| - 1]), events[|events| - 1]);
    }
  }

  // ---- What every run guarantees ------------------------------------------------------------

  /** Moves the generation on. */
  predicate Supersedes(e: Event) {
    e.Start? || e.StartUnattached? || e.Stop? || e.Retire?
  }

  /** A start that is behind the generation is not installed and stays so. */
  lemma {:induction false} BehindIsNeverInstalled(b: Binding, events: seq<Event>, began: nat)
    requires Inv(b) && began !in b.installed && began < b.generation
    ensures began !in RunFrom(b, events).installed && b.generation <= RunFrom(b, events).generation
  {
    if events != [] { BehindIsNeverInstalled(b, events[..|events| - 1], began); }
  }

  /**
   A start that a newer start, a stop or a retirement overtakes before it becomes ready is never
   installed, whatever happens later.
   */
  lemma SupersededIsNeverInstalled(before: seq<Event>, e: Event, after: seq<Event>, began: nat)
    requires began in Run(before).starting && Supersedes(e)
    ensures began !in RunFrom(Step(Run(before), e), after).installed
  {
    RunInv(INITIAL, before);
    StepInv(Run(before), e);
    BehindIsNeverInstalled(Step(Run(before), e), after, began);
  }

  ghost predicate Overtaken(events: seq<Event>) {
    exists k :: 0 <= k < |events| && Supersedes(events[k])
  }

  lemma {:induction false} GenerationMoves(b: Binding, events: seq<Event>)
    ensures b.generation <= RunFrom(b, events).generation
    ensures RunFrom(b, events).generation == b.generation <==> !Overtaken(events)
  {
    if events != [] {
      var front := events[..|events| - 1];
      GenerationMoves(b, front);
      if k :| 0 <= k < |front| && Supersedes(front[k]) { assert Supersedes(events[k]); }
      if k :| 0 <= k < |events| && Supersedes(events[k]) { assert k < |front| ==> Supersedes(front[k]); }
    }
  }

  /** While a start is not overtaken and not ready, no other one is installed. */
  lemma {:induction false} NothingElseInstalls(b: Binding, events: seq<Event>)
    requires Inv(b) && b.generation in b.starting && !Overtaken(events) && b.generation in RunFrom(b, events).starting
    ensures RunFrom(b, events).duplex == b.duplex
  {
    if events != [] {
      var front, last := events[..|events| - 1], events[|events| - 1];
      var s := RunFrom(b, front);
      assert !Supersedes(last);
      assert !Overtaken(front) by { if k :| 0 <= k < |front| && Supersedes(front[k]) { assert Supersedes(events[k]); } }
      GenerationMoves(b, front);
      StartingStays(s, last, b.generation);
      NothingElseInstalls(b, front);
    }
  }

  lemma StartingStays(s: Binding, e: Event, began: nat)
    requires began in Step(s, e).starting && !Supersedes(e)
    ensures began in s.starting
  {
  }

  /** A start that is ready is installed exactly if nothing has overtaken it and nothing was installed before. */
  lemma ReadyIsInstalledIff(before: seq<Event>, after: seq<Event>, stream: Stream)
    requires var s := Step(Run(before), Start);
             var t := RunFrom(s, after);
             s.generation in t.starting && t.starting[s.generation] == Waiting(stream)
    ensures var s := Step(Run(before), Start);
            var r := Step(RunFrom(s, after), BecomesReady(s.generation));
            && (r.duplex == Some(Installed(s.generation, stream)) <==> !Overtaken(after) && Run(before).duplex.None?)
            && (r.duplex != Some(Installed(s.generation, stream)) ==> stream in r.closing)
  {
    var s := Step(Run(before), Start);
    RunInv(INITIAL, before);
    StepInv(Run(before), Start);
    RunInv(s, after);
    GenerationMoves(s, after);
    if !Overtaken(after) { NothingElseInstalls(s, after); }
  }

  /** An installed stream stays until a stop or retirement, which removes it and decides its close. */
  lemma InstalledIsKeptOrClosed(events: seq<Event>, e: Event)
    requires Run(events).duplex.Some?
    ensures var b := Run(events); var t := Step(b, e);
            if e.Stop? || e.Retire? then
              t.duplex.None? && t.undone == b.undone + [b.duplex.value.began] && b.duplex.value.stream in t.closing
            else t.duplex == b.duplex && t.installed == b.installed && t.undone == b.undone
  {
  }

  /** Every installation is the current one, or was undone exactly once, which decided the close of its stream. */
  lemma EachInstallationIsUndoneOnce(events: seq<Event>, began: nat)
    requires began in Run(events).installed
    ensures var b := Run(events);
            && (b.duplex == Some(Installed(began, b.installed[began])) <==> began !in b.undone)
            && (began in b.undone ==> b.installed[began] in b.closing)
            && Distinct(b.undone)
  {
    RunInv(INITIAL, events);
  }

  // ---- When the installed stream is open ----------------------------------------------------

  /** No start is in progress, nothing is installed and every close that was decided is done. */
  predicate Quiet(b: Binding) {
    b.starting == map[] && b.duplex.None? && b.closing <= b.closed
  }

  /** Every start begins when the binding is quiet. */
  ghost predicate OrderlyFrom(b: Binding, events: seq<Event>) {
    events != [] ==>
      && OrderlyFrom(b, events[..|events| - 1])
      && (events[|events| - 1].Start? ==> Quiet(RunFrom(b, events[..|events| - 1])))
  }

  predicate InstalledIsOpen(b: Binding) {
    b.duplex.Some? ==> b.duplex.value.stream !in b.closed
  }

  /** With orderly starts there is one stream in use at most, awaited, installed or about to be closed. */
  ghost predicate OneAtATime(b: Binding) {
    && b.closed <= b.closing
    && (forall i, j :: i in b.starting && j in b.starting ==> i == j)
    && (b.duplex.Some? ==> b.starting == map[])
    && (b.starting != map[] || b.duplex.Some? ==> b.closing <= b.closed)
    && (forall i :: i in b.starting && b.starting[i].Waiting? ==> InUse(b, b.starting[i].stream))
    && (b.duplex.Some? ==> InUse(b, b.duplex.value.stream))
    && (forall stream :: stream in b.closing ==>
         stream < b.streams && (stream !in b.closed ==> b.provided == Some(stream)))
  }

  ghost predicate InUse(b: Binding, stream: Stream) {
    b.provided == Some(stream) && stream !in b.closing && stream < b.streams
  }

  lemma OneStep(b: Binding, e: Event)
    requires OneAtATime(b) && (e.Start? ==> Quiet(b))
    ensures OneAtATime(Step(b, e))
  {
  }

  lemma {:induction false} OrderlyRun(b: Binding, events: seq<Event>)
    requires OneAtATime(b) && OrderlyFrom(b, events)
    ensures OneAtATime(RunFrom(b, events))
  {
    if events != [] {
      OrderlyRun(b, events[..|events| - 1]);
      OneStep(RunFrom(b, events[..|events| - 1]), events[|events| - 1]);
    }
  }

  lemma RunSnoc(b: Binding, events: seq<Event>, e: Event)
    ensures RunFrom(b, events + [e]) == Step(RunFrom(b, events), e)
    ensures OrderlyFrom(b, events) && !e.Start? ==> OrderlyFrom(b, events + [e])
  {
    assert (events + [e])[..|events|] == events;
  }

  /** A start while a stream is installed shares that stream, and closes it when it comes to be refused. */
  lemma StartWhileInstalled(b: Binding) returns (after: seq<Event>)
    requires Inv(b) && OneAtATime(b) && b.duplex.Some?
    ensures OrderlyFrom(Step(b, Start), after) && !InstalledIsOpen(RunFrom(Step(b, Start), after))
  {
    var s, g, stream := Step(b, Start), b.generation + 1, b.duplex.value.stream;
    var e1, e2, e3 := TakeStream(g), BecomesReady(g), FinishClose(stream);
    RunSnoc(s, [], e1);
    RunSnoc(s, [] + [e1], e2);
    RunSnoc(s, [] + [e1] + [e2], e3);
    after := [] + [e1] + [e2] + [e3];
  }

  /** A start while another is in progress shares its stream, which the overtaken one closes. */
  lemma StartWhileStarting(b: Binding, p: nat) returns (after: seq<Event>)
    requires Inv(b) && OneAtATime(b) && p in b.starting
    ensures OrderlyFrom(Step(b, Start), after) && !InstalledIsOpen(RunFrom(Step(b, Start), after))
  {
    var s, g := Step(b, Start), b.generation + 1;
    var stream := SharedStream(b, p);
    var e1, e2, e3, e4, e5 := TakeStream(p), TakeStream(g), BecomesReady(p), BecomesReady(g), FinishClose(stream);
    RunSnoc(s, [], e1);
    RunSnoc(s, [] + [e1], e2);
    RunSnoc(s, [] + [e1] + [e2], e3);
    RunSnoc(s, [] + [e1] + [e2] + [e3], e4);
    RunSnoc(s, [] + [e1] + [e2] + [e3] + [e4], e5);
    after := [] + [e1] + [e2] + [e3] + [e4] + [e5];
  }

  lemma SharedStream(b: Binding, p: nat) returns (stream: Stream)
    requires Inv(b) && OneAtATime(b) && p in b.starting
    ensures var g := b.generation + 1;
            var t := Step(Step(Step(b, Start), TakeStream(p)), TakeStream(g));
            var r := Step(Step(t, BecomesReady(p)), BecomesReady(g));
            r.duplex.Some? && r.duplex.value.stream == stream && stream in r.closing
  {
    var g := b.generation + 1;
    var s := Step(Step(b, Start), TakeStream(p));
    stream := s.starting[p].stream;
    assert p != g && s.provided == Some(stream) && stream !in s.closed;
    var t := Step(s, TakeStream(g));
    assert t.starting[g] == t.starting[p] == s.starting[p];
  }

  /** A start while a close is still to be done gets the stream that is about to be closed. */
  lemma StartWhileClosing(b: Binding, stream: Stream) returns (after: seq<Event>)
    requires Inv(b) && OneAtATime(b) && b.duplex.None? && stream in b.closing && stream !in b.closed
    ensures OrderlyFrom(Step(b, Start), after) && !InstalledIsOpen(RunFrom(Step(b, Start), after))
  {
    var s, g := Step(b, Start), b.generation + 1;
    var e1, e2, e3 := TakeStream(g), BecomesReady(g), FinishClose(stream);
    RunSnoc(s, [], e1);
    RunSnoc(s, [] + [e1], e2);
    RunSnoc(s, [] + [e1] + [e2], e3);
    after := [] + [e1] + [e2] + [e3];
  }

  /** A start that a stop overtakes before it is ready: its close is decided and not done. */
  const OVERTAKEN: seq<Event> := [Start, TakeStream(1), Stop, BecomesReady(1)]

  /** The next start is installed with the same stream, and the close is done. */
  const RESTARTED: seq<Event> := [Start, TakeStream(3), BecomesReady(3), FinishClose(0)]

  const CLOSE_DECIDED := Binding(2, None, map[], Some(0), 1, {0}, {}, map[], [])

  lemma RunOf4(b: Binding, e1: Event, e2: Event, e3: Event, e4: Event)
    ensures RunFrom(b, [e1, e2, e3, e4]) == Step(Step(Step(Step(b, e1), e2), e3), e4)
    ensures (e1.Start? ==> Quiet(b)) && !e2.Start? && !e3.Start? && !e4.Start? ==> OrderlyFrom(b, [e1, e2, e3, e4])
  {
    assert [e1, e2, e3, e4][..3] == [e1, e2, e3] && [e1, e2, e3][..2] == [e1, e2];
    assert [e1, e2][..1] == [e1] && [e1][..0] == [];
    assert RunFrom(b, [e1]) == Step(b, e1) && RunFrom(b, [e1, e2]) == Step(Step(b, e1), e2);
    assert OrderlyFrom(b, []);
    assert (e1.Start? ==> Quiet(b)) ==> OrderlyFrom(b, [e1]);
  }

  lemma OvertakenRun()
    ensures Run(OVERTAKEN) == CLOSE_DECIDED && OrderlyFrom(INITIAL, OVERTAKEN)
  {
    RunOf4(INITIAL, Start, TakeStream(1), Stop, BecomesReady(1));
    var b2 := Step(Step(INITIAL, Start), TakeStream(1));
    assert b2.starting == map[1 := Waiting(0)] && b2.generation == 1;
  }

  /**
   The shortest run of that kind. When the second start begins no start is in progress and nothing is
   installed; the stream that it installs is closed by the first one.
   */
  lemma PendingCloseReachesNextStart()
    ensures Run(OVERTAKEN).starting == map[] && Run(OVERTAKEN).duplex.None? && OrderlyFrom(INITIAL, OVERTAKEN)
    ensures var b := RunFrom(Run(OVERTAKEN), RESTARTED); b.duplex == Some(Installed(3, 0)) && 0 in b.closed
  {
    OvertakenRun();
    RunOf4(CLOSE_DECIDED, Start, TakeStream(3), BecomesReady(3), FinishClose(0));
    var b2 := Step(Step(CLOSE_DECIDED, Start), TakeStream(3));
    assert b2.starting == map[3 := Waiting(0)] && b2.generation == 3;
  }

  /**
   After orderly starts, one more start keeps every later installed stream open until it is undone,
   in every orderly continuation, if and only if the binding is quiet when it begins.
   */
  lemma StartIsSafeIffQuiet(before: seq<Event>)
    requires OrderlyFrom(INITIAL, before)
    ensures (forall after :: OrderlyFrom(Step(Run(before), Start), after) ==>
              InstalledIsOpen(RunFrom(Step(Run(before), Start), after)))
            <==> Quiet(Run(before))
  {
    var b := Run(before);
    RunInv(INITIAL, before);
    OrderlyRun(INITIAL, before);
    if Quiet(b) {
      OneStep(b, Start);
      forall after | OrderlyFrom(Step(b, Start), after) ensures InstalledIsOpen(RunFrom(Step(b, Start), after)) {
        OrderlyRun(Step(b, Start), after);
      }
    } else if b.duplex.Some? {
      var after := StartWhileInstalled(b);
    } else if b.starting != map[] {
      var p :| p in b.starting;
      var after := StartWhileStarting(b, p);
    } else {
      var stream :| stream in b.closing && stream !in b.closed;
      var after := StartWhileClosing(b, stream);
    }
  }

  // ---- The binding object -------------------------------------------------------------------

  class StreamBinding {
    var generation: nat
    var duplex: Option<Installed>

    constructor ()
      ensures generation == INITIAL.generation && duplex == INITIAL.duplex
    {
      generation, duplex := 0, None;
    }

    /** The first critical section of startAttachmentStream. */
    method BeginStart(ghost b: Binding) returns (began: nat)
      requires generation == b.generation
      modifies this`generation
      ensures generation == began == old(generation) + 1
      ensures generation == Step(b, Start).generation && Step(b, Start).starting == b.starting[began := Asking]
    {
      generation := generation + 1;
      began := generation;
    }

    /** The second one: install, or tell the caller to close the stream it brought. */
    method InstallReady(ghost b: Binding, began: nat, stream: Stream) returns (installed: bool)
      requires generation == b.generation && duplex == b.duplex
      requires began in b.starting && b.starting[began] == Waiting(stream)
      modifies this`duplex
      ensures duplex == Step(b, BecomesReady(began)).duplex
      ensures !installed ==> stream in Step(b, BecomesReady(began)).closing
      ensures installed <==> generation == began && old(duplex).None?
      ensures duplex == if installed then Some(Installed(began, stream)) else old(duplex)
    {
      if generation != began || duplex.Some? {
        return false;
      }
      duplex := Some(Installed(began, stream));
      return true;
    }

    /** stopAttachmentStream, and the tail of retireBinding and releaseAllStreams. */
    method HaltStream(ghost b: Binding) returns (toClose: Option<Stream>)
      requires generation == b.generation && duplex == b.duplex
      modifies this
      ensures generation == old(generation) + 1 && duplex == None
      ensures toClose == if old(duplex).Some? then Some(old(duplex).value.stream) else None
      ensures generation == Step(b, Stop).generation && duplex == Step(b, Stop).duplex
      ensures Step(b, Stop).closing == b.closing + (if toClose.Some? then {toClose.value} else {})
    {
      generation := generation + 1;
      toClose := if duplex.Some? then Some(duplex.value.stream) else None;
      duplex := None;
    }
  }
}
